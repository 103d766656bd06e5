/** Whole messages over a byte stream: sealed and sent chunk by chunk, opened and put together again. */
module NoiseSession {
  import opened Wrappers
  import opened NoiseFraming

  // ---- The ideal cipher ----------------------------------------------------

  /** One direction of a transport: sealing and opening under an explicit nonce. */
  datatype Cipher = Cipher(seal: (nat, Bytes) -> Bytes, open: (nat, Bytes) -> Option<Bytes>)

  ghost predicate GrowsByTag(c: Cipher) {
    forall n: nat, plain: Bytes {:trigger c.seal(n, plain)} :: |c.seal(n, plain)| == |plain| + NOISE_TAG_LEN
  }

  /** What was sealed under a nonce opens under it. `sent[n]` is the plaintext sealed under `n`. */
  ghost predicate OpensWhatWasSealed(c: Cipher, sent: seq<Bytes>) {
    forall n: nat {:trigger c.open(n, c.seal(n, sent[n]))} | n < |sent| :: c.open(n, c.seal(n, sent[n])) == Some(sent[n])
  }

  /** Nothing else opens: no other bytes, and nothing under a nonce the sender never used. */
  ghost predicate Unforgeable(c: Cipher, sent: seq<Bytes>) {
    forall n: nat, x: Bytes {:trigger c.open(n, x)} :: c.open(n, x).Some? ==> n < |sent| && x == c.seal(n, sent[n])
  }

  /** The laws can be met for whatever was sent, so nothing proved under them is vacuous. */
  lemma LawsAreConsistent(sent: seq<Bytes>) returns (c: Cipher)
    ensures GrowsByTag(c) && OpensWhatWasSealed(c, sent) && Unforgeable(c, sent)
  {
    var tag := seq(NOISE_TAG_LEN, i => 0);
    var seal: (nat, Bytes) -> Bytes := (n: nat, plain: Bytes) => plain + tag;
    var open: (nat, Bytes) -> Option<Bytes> :=
      (n: nat, x: Bytes) => if n < |sent| && x == seal(n, sent[n]) then Some(sent[n]) else None;
    c := Cipher(seal, open);
  }

  // ---- Sending -------------------------------------------------------------

  ghost predicate FitNoise(chunks: seq<Bytes>) {
    forall i :: 0 <= i < |chunks| ==> |chunks[i]| <= NOISE_MAX_PLAINTEXT_LEN
  }

  /** The frames of `chunks`, sealed under consecutive nonces from `n`. */
  ghost function Wire(c: Cipher, n: nat, chunks: seq<Bytes>): Bytes
    requires GrowsByTag(c)
    requires FitNoise(chunks)
    decreases |chunks|
  {
    if chunks == [] then []
    else EncodeFrame(c.seal(n, chunks[0])) + Wire(c, n + 1, chunks[1..])
  }

  /** A byte stream that takes everything, or breaks once it has taken `room` more bytes. */
  class Writer {
    var written: Bytes
    var room: Option<nat>

    constructor (room: Option<nat>)
      ensures written == [] && this.room == room
    {
      written, this.room := [], room;
    }

    method WriteAll(data: Bytes) returns (ok: bool)
      modifies this
      ensures old(written) <= written <= old(written) + data
      ensures ok ==> written == old(written) + data
      ensures ok <==> old(room).None? || |data| <= old(room).value
      ensures room.None? <==> old(room).None?
    {
      if room.None? {
        written := written + data;
        return true;
      }
      var n := Min(|data|, room.value);
      written := written + data[..n];
      room := Some(room.value - n);
      return n == |data|;
    }

    method Flush() returns (ok: bool)
      ensures ok <==> room != Some(0)
    {
      return room != Some(0);
    }
  }

  /** The ceiling on the frames of one message; a message within `max` never reaches it. */
  function MaxChunks(max: nat): nat {
    max / MAX_CHUNK_PAYLOAD_LEN + 2
  }

  // ---- Receiving -----------------------------------------------------------

  /** The effect of receiving: the result, the nonce and stream left behind, frames read. */
  datatype Received = Received(result: Result<Option<Bytes>, Error>, nonce: nat, rest: Bytes, frames: nat)

  /** Where reassembly stands after one frame: done with a result, or holding one chunk more. */
  datatype Progress = Done(received: Received) | More(nonce: nat, rest: Bytes, assembled: Bytes)

  /** One turn of the reassembly loop on a stream holding exactly `bytes`. */
  function RecvTurn(c: Cipher, max: nat, nonce: nat, bytes: Bytes, chunks: nat, assembled: Bytes): (p: Progress)
    requires |assembled| <= max && chunks <= MaxChunks(max)
    ensures p.More? ==> |assembled| < |p.assembled| <= max && chunks < MaxChunks(max)
                        && |p.rest| < |bytes| && p.nonce == nonce + 1
    ensures p.Done? ==> p.received.frames <= chunks + 1 && p.received.nonce <= nonce + 1
    ensures p.Done? && p.received.result.Ok? && p.received.result.value.Some? ==>
              |p.received.result.value.value| <= max && |p.received.rest| < |bytes|
    ensures p.Done? ==> p.received.result != Err(Io)
  {
    match ReadFrameSpec(bytes)
    case Eof =>
      Done(Received(if chunks == 0 then Ok(None) else Err(TruncatedFrame(0, 2)), nonce, bytes, chunks))
    case Malformed(error, rest) => Done(Received(Err(error), nonce, rest, chunks))
    case Frame(frame, rest) =>
      if chunks + 1 > MaxChunks(max) then
        Done(Received(Err(TooManyChunks(MaxChunks(max))), nonce, rest, chunks + 1))
      else
        match c.open(nonce, frame)
        case None => Done(Received(Err(TransportAuth), nonce, rest, chunks + 1))
        case Some(plain) =>
          match SplitChunkHeader(plain)
          case Err(error) => Done(Received(Err(error), nonce + 1, rest, chunks + 1))
          case Ok((final, body)) =>
            if !final && body == [] then
              Done(Received(Err(EmptyContinuationChunk), nonce + 1, rest, chunks + 1))
            else if |assembled| + |body| > max then
              Done(Received(Err(MessageTooLarge(max)), nonce + 1, rest, chunks + 1))
            else if final then
              Done(Received(Ok(Some(assembled + body)), nonce + 1, rest, chunks + 1))
            else
              More(nonce + 1, rest, assembled + body)
  }

  /** Reassembly to its end, after `chunks` chunks held in `assembled`. The precondition is the
      memory bound and the postcondition the progress bound: however long the stream, no call holds
      more than `max` bytes or reads more than one frame past the chunk ceiling. */
  function RecvFrom(c: Cipher, max: nat, nonce: nat, bytes: Bytes, chunks: nat, assembled: Bytes): (r: Received)
    requires |assembled| <= max && chunks <= MaxChunks(max)
    ensures r.frames <= MaxChunks(max) + 1
    ensures r.result.Ok? && r.result.value.Some? ==> |r.result.value.value| <= max && |r.rest| < |bytes|
    ensures r.result != Err(Io)
    decreases |bytes|
  {
    match RecvTurn(c, max, nonce, bytes, chunks, assembled)
    case Done(received) => received
    case More(nonce', rest, assembled') => RecvFrom(c, max, nonce', rest, chunks + 1, assembled')
  }

  lemma RecvTurns(c: Cipher, max: nat, nonce: nat, bytes: Bytes, chunks: nat, assembled: Bytes)
    requires |assembled| <= max && chunks <= MaxChunks(max)
    ensures RecvFrom(c, max, nonce, bytes, chunks, assembled)
            == match RecvTurn(c, max, nonce, bytes, chunks, assembled)
               case Done(received) => received
               case More(nonce', rest, assembled') => RecvFrom(c, max, nonce', rest, chunks + 1, assembled')
  {
  }

  lemma WireHead(c: Cipher, n: nat, chunks: seq<Bytes>)
    requires GrowsByTag(c) && FitNoise(chunks) && chunks != []
    ensures |c.seal(n, chunks[0])| <= NOISE_MAX_MESSAGE_LEN && FitNoise(chunks[1..])
    ensures Wire(c, n, chunks) == EncodeFrame(c.seal(n, chunks[0])) + Wire(c, n + 1, chunks[1..])
  {
  }

  lemma Reassociate(a: Bytes, b: Bytes, c: Bytes)
    ensures a + (b + c) == (a + b) + c
  {
  }

  lemma PrefixOfWhole(part: Bytes, more: Bytes, later: Bytes, whole: Bytes)
    requires part <= more && more + later == whole
    ensures part <= whole
  {
  }

  class Session {
    const tx: Cipher
    const rx: Cipher
    var sendNonce: nat
    var recvNonce: nat
    var maxMessageLen: nat

    constructor (tx: Cipher, rx: Cipher)
      ensures this.tx == tx && this.rx == rx
      ensures sendNonce == 0 && recvNonce == 0 && maxMessageLen == DEFAULT_MAX_MESSAGE_LEN
    {
      this.tx, this.rx := tx, rx;
      sendNonce, recvNonce, maxMessageLen := 0, 0, DEFAULT_MAX_MESSAGE_LEN;
    }

    method SetMaxMessageLen(max: nat)
      modifies this`maxMessageLen
      ensures maxMessageLen == max
    {
      maxMessageLen := max;
    }

    /** Encrypt and write `payload`, one frame a chunk. A writer that breaks leaves a part of it on the
        stream, and the nonces of the chunks sealed so far are spent. */
    method Send(payload: Bytes, writer: Writer) returns (r: Result<(), Error>)
      requires GrowsByTag(tx)
      modifies this`sendNonce, writer
      ensures old(writer.room).None? ==> r.Ok? && writer.room.None?
      ensures r.Ok? ==>
                && sendNonce == old(sendNonce) + ChunkCount(payload)
                && writer.written == old(writer.written) + Wire(tx, old(sendNonce), SplitIntoChunks(payload))
      ensures r.Err? ==>
                && r.error == Io
                && old(sendNonce) < sendNonce <= old(sendNonce) + ChunkCount(payload)
                && old(writer.written) <= writer.written
                   <= old(writer.written) + Wire(tx, old(sendNonce), SplitIntoChunks(payload))
    {
      hide Wire;
      hide ChunkAt;
      var ok := SendChunks(SplitIntoChunks(payload), writer);
      if !ok {
        return Err(Io);
      }
      var flushed := writer.Flush();
      return if flushed then Ok(()) else Err(Io);
    }

    method SendChunks(chunks: seq<Bytes>, writer: Writer) returns (ok: bool)
      requires GrowsByTag(tx) && FitNoise(chunks)
      modifies this`sendNonce, writer
      ensures writer.room.None? <==> old(writer.room).None?
      ensures old(writer.room).None? ==> ok
      ensures ok ==> sendNonce == old(sendNonce) + |chunks|
                     && writer.written == old(writer.written) + Wire(tx, old(sendNonce), chunks)
      ensures !ok ==> old(sendNonce) < sendNonce <= old(sendNonce) + |chunks|
                      && old(writer.written) <= writer.written <= old(writer.written) + Wire(tx, old(sendNonce), chunks)
    {
      ghost var rest := Wire(tx, sendNonce, chunks);
      ghost var all := writer.written + rest;
      for i := 0 to |chunks|
        invariant sendNonce == old(sendNonce) + i
        invariant FitNoise(chunks[i..]) && rest == Wire(tx, sendNonce, chunks[i..])
        invariant writer.written + rest == all && old(writer.written) <= writer.written
        invariant writer.room.None? <==> old(writer.room).None?
      {
        WireHead(tx, sendNonce, chunks[i..]);
        assert chunks[i..][0] == chunks[i] && chunks[i..][1..] == chunks[i + 1..];
        hide Wire;
        hide EncodeFrame;
        hide GrowsByTag;
        var frame := EncodeFrame(tx.seal(sendNonce, chunks[i]));
        rest := Wire(tx, sendNonce + 1, chunks[i + 1..]);
        Reassociate(writer.written, frame, rest);
        ghost var whole := writer.written + frame;
        var wrote := writer.WriteAll(frame);
        sendNonce := sendNonce + 1;
        if !wrote {
          PrefixOfWhole(writer.written, whole, rest, all);
          return false;
        }
      }
      assert rest == [];
      return true;
    }

    /** One call leaves the result, the nonce and the stream that `RecvFrom` defines on the bytes. */
    method Recv(reader: Reader) returns (r: Result<Option<Bytes>, Error>)
      modifies this`recvNonce, reader
      ensures old(reader.Sound()) ==> reader.Sound() && r != Err(Io)
      ensures r != Err(Io) ==>
                var spec := RecvFrom(rx, maxMessageLen, old(recvNonce), old(reader.rest), 0, []);
                spec == Received(r, recvNonce, reader.rest, spec.frames)
    {
      hide RecvFrom;
      var maxChunks := MaxChunks(maxMessageLen);
      var assembled: Bytes := [];
      var chunks: nat := 0;
      ghost var spec := RecvFrom(rx, maxMessageLen, recvNonce, reader.rest, 0, []);
      while true
        invariant |assembled| <= maxMessageLen && chunks <= maxChunks
        invariant old(reader.Sound()) ==> reader.Sound()
        invariant spec == RecvFrom(rx, maxMessageLen, recvNonce, reader.rest, chunks, assembled)
        decreases maxChunks - chunks
      {
        RecvTurns(rx, maxMessageLen, recvNonce, reader.rest, chunks, assembled);
        var frame := ReadFrame(reader);
        if frame.Err? {
          r := Err(frame.error);
          break;
        }
        if frame.value.None? {
          r := if chunks == 0 then Ok(None) else Err(TruncatedFrame(0, 2));
          break;
        }
        chunks := chunks + 1;
        if chunks > maxChunks {
          r := Err(TooManyChunks(maxChunks));
          break;
        }
        var plain := rx.open(recvNonce, frame.value.value);
        if plain.None? {
          r := Err(TransportAuth);
          break;
        }
        recvNonce := recvNonce + 1;
        var header := SplitChunkHeader(plain.value);
        if header.Err? {
          r := Err(header.error);
          break;
        }
        var (final, body) := header.value;
        if !final && body == [] {
          r := Err(EmptyContinuationChunk);
          break;
        }
        if |assembled| + |body| > maxMessageLen {
          r := Err(MessageTooLarge(maxMessageLen));
          break;
        }
        assembled := assembled + body;
        if final {
          r := Ok(Some(assembled));
          break;
        }
      }
    }
  }
}
