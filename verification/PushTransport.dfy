/** The phone's end of the channel, which never waits: bytes are handed in, and whole messages taken out. */
module PushTransport {
  import opened Wrappers
  import opened NoiseFraming
  import opened NoiseSession

  const LENGTH_PREFIX_LEN: nat := 2
  const MAX_INBOUND_BUFFER: nat := 2 * (NOISE_MAX_MESSAGE_LEN + LENGTH_PREFIX_LEN)

  datatype OspreyError =
    | SessionState
    | InboundOverflow(limit: nat)
    | TooLarge(limit: nat)
    | Framing
    | HandshakeRejected
    | Channel(error: Error)

  /** How many bytes a take would remove: none until the first frame has arrived to its last byte. */
  function CompleteFrameLen(buffer: Bytes): (r: Option<nat>)
    ensures r.Some? <==> ReadFrameSpec(buffer).Frame?
    ensures r.Some? ==> 2 <= r.value <= |buffer| && buffer[..r.value] == EncodeFrame(ReadFrameSpec(buffer).body)
    ensures r.Some? ==> buffer[r.value..] == ReadFrameSpec(buffer).rest
  {
    if |buffer| < LENGTH_PREFIX_LEN then None
    else
      var total: nat := LENGTH_PREFIX_LEN + ((buffer[0] as int) * 256 + buffer[1]);
      if |buffer| >= total then
        assert buffer == buffer[..total] + buffer[total..];
        Some(total)
      else None
  }

  /** A buffer holding no complete frame is at most one byte short of the largest frame. */
  lemma IncompleteIsSmall(buffer: Bytes)
    requires CompleteFrameLen(buffer).None?
    ensures |buffer| <= NOISE_MAX_MESSAGE_LEN + 1
  {
  }

  function PushBounded(buffer: Bytes, data: Bytes): (r: Result<Bytes, OspreyError>)
    ensures r.Ok? <==> |buffer| + |data| <= MAX_INBOUND_BUFFER
    ensures r.Ok? ==> r.value == buffer + data && |r.value| <= MAX_INBOUND_BUFFER
  {
    if |buffer| + |data| > MAX_INBOUND_BUFFER then Err(InboundOverflow(MAX_INBOUND_BUFFER))
    else Ok(buffer + data)
  }

  /** The largest push that is safe for a caller who drains first is 65538 bytes, exactly. */
  lemma SafePush(n: nat)
    ensures n <= 65538 <==>
            forall buffer: Bytes, data: Bytes ::
              CompleteFrameLen(buffer).None? && |data| == n ==> PushBounded(buffer, data).Ok?
  {
    forall buffer: Bytes, data: Bytes | CompleteFrameLen(buffer).None? && |data| == n && n <= 65538
      ensures PushBounded(buffer, data).Ok?
    {
      IncompleteIsSmall(buffer);
    }
    if n > 65538 {
      var widest: Bytes := [255, 255] + seq(NOISE_MAX_MESSAGE_LEN - 1, i => 0);
      var data: Bytes := seq(n, i => 0);
      assert CompleteFrameLen(widest).None? && |data| == n && PushBounded(widest, data).Err?;
    }
  }

  // ---- The transport -------------------------------------------------------

  /** What the caller's operations see of a live transport. */
  datatype Live = Live(nonce: nat, inbound: Bytes, failed: bool)

  /** How a call on exactly one frame's bytes is reported across the bridge. */
  function OneFrame(result: Result<Option<Bytes>, Error>): Result<Bytes, OspreyError> {
    match result
    case Ok(Some(message)) => Ok(message)
    case Ok(None) => Err(Framing)
    case Err(error) =>
      if error == TruncatedFrame(0, 2) then Err(TooLarge(MAX_CHUNK_PAYLOAD_LEN)) else Err(Channel(error))
  }

  function PushStep(s: Live, data: Bytes): (Live, Result<(), OspreyError>) {
    if s.failed then (s, Err(SessionState))
    else
      match PushBounded(s.inbound, data)
      case Ok(grown) => (s.(inbound := grown), Ok(()))
      case Err(error) => (s, Err(error))
  }

  function NextStep(c: Cipher, s: Live): (Live, Result<Option<Bytes>, OspreyError>) {
    if s.failed then (s, Err(SessionState))
    else
      match CompleteFrameLen(s.inbound)
      case None => (s, Ok(None))
      case Some(total) =>
        var r := RecvFrom(c, MAX_CHUNK_PAYLOAD_LEN, s.nonce, s.inbound[..total], 0, []);
        match OneFrame(r.result)
        case Ok(message) => (Live(r.nonce, s.inbound[total..], false), Ok(Some(message)))
        case Err(error) => (Live(r.nonce, s.inbound, true), Err(error))
  }

  class NoiseTransport {
    const session: Session
    var inbound: Bytes
    var failed: Option<OspreyError>

    ghost predicate Valid()
      reads this, session
    {
      session.maxMessageLen == MAX_CHUNK_PAYLOAD_LEN && |inbound| <= MAX_INBOUND_BUFFER
    }

    ghost function State(): Live
      reads this, session
    {
      Live(session.recvNonce, inbound, failed.Some?)
    }

    /** A live transport that starts with `inbound` still to be read, and reads it first. */
    constructor FromSession(session: Session, inbound: Bytes)
      requires |inbound| <= MAX_INBOUND_BUFFER
      modifies session`maxMessageLen
      ensures Valid() && this.session == session
      ensures State() == Live(session.recvNonce, inbound, false)
    {
      this.session := session;
      this.inbound := inbound;
      failed := None;
      new;
      session.SetMaxMessageLen(MAX_CHUNK_PAYLOAD_LEN);
    }

    method Encrypt(payload: Bytes) returns (r: Result<Bytes, OspreyError>)
      requires Valid() && GrowsByTag(session.tx)
      modifies session`sendNonce
      ensures Valid() && State() == old(State())
      ensures failed.Some? ==> r == Err(SessionState) && session.sendNonce == old(session.sendNonce)
      ensures failed.None? ==>
                && r == Ok(Wire(session.tx, old(session.sendNonce), SplitIntoChunks(payload)))
                && session.sendNonce == old(session.sendNonce) + ChunkCount(payload)
    {
      if failed.Some? {
        return Err(SessionState);
      }
      var wire := new Writer(None);
      var sent := session.Send(payload, wire);
      assert wire.written == Wire(session.tx, old(session.sendNonce), SplitIntoChunks(payload));
      return Ok(wire.written);
    }

    method PushBytes(data: Bytes) returns (r: Result<(), OspreyError>)
      requires Valid()
      modifies this`inbound
      ensures Valid()
      ensures (State(), r) == PushStep(old(State()), data)
    {
      if failed.Some? {
        return Err(SessionState);
      }
      var grown := PushBounded(inbound, data);
      if grown.Err? {
        return Err(grown.error);
      }
      inbound := grown.value;
      return Ok(());
    }

    /** One `NextStep`: a frame consumed and delivered, nothing done for want of bytes, or failed for good. */
    method NextMessage() returns (r: Result<Option<Bytes>, OspreyError>)
      requires Valid()
      modifies this, session`recvNonce
      ensures Valid()
      ensures (State(), r) == NextStep(session.rx, old(State()))
      ensures old(failed).Some? ==> failed == old(failed)
    {
      if failed.Some? {
        return Err(SessionState);
      }
      var total := CompleteFrameLen(inbound);
      if total.None? {
        return Ok(None);
      }
      var cursor := new Reader(inbound[..total.value], []);
      var received := session.Recv(cursor);
      var outcome := OneFrame(received);
      match outcome {
        case Ok(message) =>
          inbound := inbound[total.value..];
          return Ok(Some(message));
        case Err(error) =>
          failed := Some(error);
          return Err(error);
      }
    }
  }

  // ---- The handshake that precedes it --------------------------------------

  /** The initiator's two-message handshake; `decode` is what its one inbound message decrypts to. */
  class NoiseHandshake {
    const decode: Bytes -> Option<Bytes>
    const tx: Cipher
    const rx: Cipher
    var promoted: bool
    var inbound: Bytes
    var writeCount: nat
    var readCount: nat

    constructor (decode: Bytes -> Option<Bytes>, tx: Cipher, rx: Cipher)
      ensures !promoted && inbound == [] && writeCount == 0 && readCount == 0
      ensures this.decode == decode && this.tx == tx && this.rx == rx
    {
      this.decode, this.tx, this.rx := decode, tx, rx;
      promoted, inbound, writeCount, readCount := false, [], 0, 0;
    }

    method PushBytes(data: Bytes) returns (r: Result<(), OspreyError>)
      modifies this`inbound
      ensures r.Ok? <==> |old(inbound)| + |data| <= MAX_INBOUND_BUFFER
      ensures inbound == if r.Ok? then old(inbound) + data else old(inbound)
    {
      var grown := PushBounded(inbound, data);
      if grown.Err? {
        return Err(grown.error);
      }
      inbound := grown.value;
      return Ok(());
    }

    method WriteMessage() returns (r: Result<(), OspreyError>)
      modifies this`writeCount
      ensures r.Ok? <==> !promoted
      ensures writeCount == if r.Ok? then old(writeCount) + 1 else old(writeCount)
    {
      if promoted {
        return Err(SessionState);
      }
      writeCount := writeCount + 1;
      return Ok(());
    }

    /** Consume one buffered handshake message, leaving everything behind it untouched. */
    method ReadMessage() returns (r: Result<Option<Bytes>, OspreyError>)
      modifies this`inbound, this`readCount
      ensures var head := ReadFrameSpec(old(inbound));
              if head.Frame? then
                && inbound == head.rest
                && (r.Ok? <==> !promoted && old(readCount) == 0 && decode(head.body).Some?)
                && (r.Ok? ==> r.value == decode(head.body))
                && readCount == old(readCount) + (if r.Ok? then 1 else 0)
              else
                r == Ok(None) && inbound == old(inbound) && readCount == old(readCount)
    {
      var total := CompleteFrameLen(inbound);
      if total.None? {
        return Ok(None);
      }
      var frame := inbound[LENGTH_PREFIX_LEN..total.value];
      inbound := inbound[total.value..];
      if promoted {
        return Err(SessionState);
      }
      // The pattern has one inbound message: the state machine refuses another.
      var payload := if readCount == 0 then decode(frame) else None;
      if payload.None? {
        return Err(HandshakeRejected);
      }
      readCount := readCount + 1;
      return Ok(payload);
    }

    /** Promote: the buffered bytes past the handshake move across, so nothing is lost. */
    method IntoTransport() returns (r: Result<NoiseTransport, OspreyError>)
      requires |inbound| <= MAX_INBOUND_BUFFER
      modifies this
      ensures promoted && inbound == (if old(promoted) then old(inbound) else [])
      ensures r.Ok? <==> !old(promoted) && old(writeCount) >= 1 && old(readCount) >= 1
      ensures r.Ok? ==> fresh(r.value) && fresh(r.value.session) && r.value.Valid()
                        && r.value.session.rx == rx && r.value.session.tx == tx
                        && r.value.State() == Live(0, old(inbound), false)
    {
      if promoted {
        return Err(SessionState);
      }
      promoted := true;
      var leftover := inbound;
      inbound := [];
      if writeCount == 0 || readCount == 0 {
        return Err(HandshakeRejected);
      }
      var session := new Session(tx, rx);
      var transport := new NoiseTransport.FromSession(session, leftover);
      return Ok(transport);
    }
  }
}
