/** The host's half of pairing: a single-use, time-boxed offer, answered one attempt at a time. */
module PairingFlow {
  import opened Wrappers
  import opened AuditLog
  import opened Identity
  import opened NoiseFraming
  import opened NoiseSession

  /** ASCII of `osprey/pair/confirm/v1`. */
  const CONFIRM_TAG: Bytes :=
    [111, 115, 112, 114, 101, 121, 47, 112, 97, 105, 114, 47, 99, 111, 110, 102, 105, 114, 109, 47, 118, 49]

  /** ASCII of `osprey/pair/accept/v1`. */
  const ACCEPT_TAG: Bytes :=
    [111, 115, 112, 114, 101, 121, 47, 112, 97, 105, 114, 47, 97, 99, 99, 101, 112, 116, 47, 118, 49]

  datatype PairingError = Refused(reason: Reason) | AuditFailed

  /** A completed handshake: its transport ciphers, the static it authenticated, and the peer's first
      payload, when that parsed. */
  datatype Agreement = Agreement(rx: Cipher, tx: Cipher, remoteStatic: Bytes, request: Option<PublicIdentity>)

  type Handshake = Result<Agreement, Reason>

  /** What `recv` made of the peer's first transport message. */
  type Confirmation = Result<Option<Bytes>, Error>

  // ---- One attempt -----------------------------------------------------------

  /** The offer's local state. */
  datatype Offer = Offer(createdAtMs: int, ttlMs: nat, consumed: bool)

  /** A clock that has gone back counts as expiry. */
  predicate IsExpired(offer: Offer, nowMs: int) {
    !(0 <= nowMs - offer.createdAtMs <= offer.ttlMs)
  }

  function PinFromHandshake(crypto: Crypto, agreed: Agreement): (r: Result<PinnedPeer, Reason>)
    ensures r.Ok? ==> Verify(crypto, r.value).Ok? && r.value.noiseStaticPub == agreed.remoteStatic
  {
    match agreed.request
    case None => Err(MalformedPayload)
    case Some(identity) =>
      match PinPeer(crypto, identity)
      case Err(_) => Err(BadCrossSignature)
      case Ok(peer) => if peer.noiseStaticPub == agreed.remoteStatic then Ok(peer) else Err(StaticMismatch)
  }

  function JudgeConfirmation(confirm: Confirmation): Result<(), Reason> {
    match confirm
    case Err(_) => Err(PskMismatch)
    case Ok(None) => Err(PskMismatch)
    case Ok(Some(tag)) => if tag == CONFIRM_TAG then Ok(()) else Err(MalformedPayload)
  }

  /** The verdict on an attempt, and the offer it leaves. */
  function Attempt(crypto: Crypto, offer: Offer, nowMs: int, handshake: Handshake, confirm: Confirmation, acceptLands: bool)
    : (Result<PinnedPeer, Reason>, Offer)
  {
    if offer.consumed then (Err(Replayed), offer)
    else if IsExpired(offer, nowMs) then (Err(Expired), offer)
    else if handshake.Err? then (Err(handshake.error), offer)
    else
      match PinFromHandshake(crypto, handshake.value)
      case Err(reason) => (Err(reason), offer)
      case Ok(peer) =>
        match JudgeConfirmation(confirm)
        case Err(reason) => (Err(reason), offer)
        case Ok(_) => (if acceptLands then Ok(peer) else Err(Transport), offer.(consumed := true))
  }

  function Event(crypto: Crypto, verdict: Result<PinnedPeer, Reason>): AuditEvent {
    match verdict
    case Ok(peer) => PairingSucceeded(FingerprintOf(crypto, peer), peer.noiseStaticPub)
    case Err(reason) => PairingFailed(reason)
  }

  /** What the caller gets: a success that cannot be recorded is a failure. */
  function Outcome(verdict: Result<PinnedPeer, Reason>, recorded: bool): Result<PinnedPeer, PairingError> {
    match verdict
    case Ok(peer) => if recorded then Ok(peer) else Err(AuditFailed)
    case Err(reason) => Err(Refused(reason))
  }

  // ---- The responder ---------------------------------------------------------

  class PairingOffer {
    const createdAtMs: int
    const ttlMs: nat
    var consumed: bool

    constructor (createdAtMs: int, ttlMs: nat)
      ensures Contents() == Offer(createdAtMs, ttlMs, false)
    {
      this.createdAtMs, this.ttlMs, consumed := createdAtMs, ttlMs, false;
    }

    function Contents(): Offer
      reads this
    {
      Offer(createdAtMs, ttlMs, consumed)
    }

    method Consume()
      modifies this
      ensures consumed
    {
      consumed := true;
    }
  }

  /** Accept one pairing attempt. `stream` carries what the peer sends after the handshake; `landed` says
      whether the acceptance went out. */
  method Respond(crypto: Crypto, offer: PairingOffer, nowMs: int, handshake: Handshake, stream: Reader, writer: Writer,
                 log: AuditLog)
    returns (r: Result<PinnedPeer, PairingError>, ghost confirm: Confirmation, ghost landed: bool)
    requires handshake.Ok? ==> GrowsByTag(handshake.value.tx)
    modifies offer, stream, writer, log
    ensures var (verdict, offer') := Attempt(crypto, old(offer.Contents()), nowMs, handshake, confirm, landed);
      && offer.Contents() == offer'
      && (var recorded := old(log.faults) == [] || !old(log.faults)[0];
          && r == Outcome(verdict, recorded)
          && log.records == old(log.records) + if recorded then [Event(crypto, verdict)] else [])
    ensures confirm == Err(Io)
            || (handshake.Ok?
                && confirm == RecvFrom(handshake.value.rx, DEFAULT_MAX_MESSAGE_LEN, 0, old(stream.rest), 0, []).result)
    ensures old(writer.room).None? ==> landed
  {
    var verdict;
    verdict, confirm, landed := RespondInner(crypto, offer, nowMs, handshake, stream, writer);
    var recorded := log.Record(Event(crypto, verdict));
    match verdict {
      case Ok(peer) => r := if recorded then Ok(peer) else Err(AuditFailed);
      case Err(reason) => r := Err(Refused(reason));
    }
  }

  method RespondInner(crypto: Crypto, offer: PairingOffer, nowMs: int, handshake: Handshake, stream: Reader, writer: Writer)
    returns (verdict: Result<PinnedPeer, Reason>, ghost confirm: Confirmation, ghost landed: bool)
    requires handshake.Ok? ==> GrowsByTag(handshake.value.tx)
    modifies offer, stream, writer
    ensures (verdict, offer.Contents()) == Attempt(crypto, old(offer.Contents()), nowMs, handshake, confirm, landed)
    ensures confirm == Err(Io)
            || (handshake.Ok?
                && confirm == RecvFrom(handshake.value.rx, DEFAULT_MAX_MESSAGE_LEN, 0, old(stream.rest), 0, []).result)
    ensures old(writer.room).None? ==> landed
  {
    hide RecvFrom;
    confirm, landed := Err(Io), true;
    if offer.consumed {
      return Err(Replayed), confirm, landed;
    }
    if IsExpired(offer.Contents(), nowMs) {
      return Err(Expired), confirm, landed;
    }
    if handshake.Err? {
      return Err(handshake.error), confirm, landed;
    }
    var agreed := handshake.value;
    var session := new Session(agreed.tx, agreed.rx);
    var pinned := PinFromHandshake(crypto, agreed);
    if pinned.Err? {
      return Err(pinned.error), confirm, landed;
    }
    // A wrong pairing secret shows up here and no earlier.
    var first := session.Recv(stream);
    confirm := first;
    if first.Err? || first.value.None? {
      return Err(PskMismatch), confirm, landed;
    }
    if first.value.value != CONFIRM_TAG {
      return Err(MalformedPayload), confirm, landed;
    }
    offer.Consume();
    var sent := session.Send(ACCEPT_TAG, writer);
    landed := sent.Ok?;
    if sent.Err? {
      return Err(Transport), confirm, landed;
    }
    return Ok(pinned.value), confirm, landed;
  }
}
