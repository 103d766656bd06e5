/** The agent's append-only security log. */
module AuditLog {
  import opened Wrappers

  /** The grounds on which an attempt to pair is turned down. */
  datatype Reason =
    | Expired | Replayed | HandshakeRejected | PskMismatch | BadCrossSignature | StaticMismatch
    | MalformedPayload | Transport

  datatype Initiator = Local | Peer

  datatype AuditEvent =
    | PairingSucceeded(fingerprint: Bytes, noiseStatic: Bytes)
    | PairingFailed(reason: Reason)
    | Unpaired(fingerprint: Bytes, initiatedBy: Initiator)

  /** A log whose writes may fail; a failed write leaves no record. */
  class AuditLog {
    var records: seq<AuditEvent>
    var faults: seq<bool>

    constructor (faults: seq<bool>)
      ensures records == [] && this.faults == faults
    {
      records, this.faults := [], faults;
    }

    method Record(event: AuditEvent) returns (ok: bool)
      modifies this
      ensures records == old(records) + if ok then [event] else []
      ensures ok <==> old(faults) == [] || !old(faults)[0]
      ensures faults == if old(faults) == [] then [] else old(faults)[1..]
    {
      ok := true;
      if faults != [] {
        ok := !faults[0];
        faults := faults[1..];
      }
      if ok {
        records := records + [event];
      }
    }
  }
}
