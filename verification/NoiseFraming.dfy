/** Length-prefix framing and chunking of Noise transport messages. */
module NoiseFraming {
  import opened Wrappers

  const NOISE_MAX_MESSAGE_LEN: nat := 65535
  const NOISE_TAG_LEN: nat := 16
  const NOISE_MAX_PLAINTEXT_LEN: nat := NOISE_MAX_MESSAGE_LEN - NOISE_TAG_LEN
  const CHUNK_HEADER_LEN: nat := 1
  const MAX_CHUNK_PAYLOAD_LEN: nat := NOISE_MAX_PLAINTEXT_LEN - CHUNK_HEADER_LEN
  const DEFAULT_MAX_MESSAGE_LEN: nat := 4 * 1024 * 1024
  const FLAG_FINAL: byte := 0
  const FLAG_MORE: byte := 1

  datatype Error =
    | Io
    | FrameTooLarge(len: nat, max: nat)
    | TruncatedFrame(got: nat, want: nat)
    | TransportAuth
    | EmptyChunk
    | BadContinuationFlag(flag: byte)
    | EmptyContinuationChunk
    | TooManyChunks(max: nat)
    | MessageTooLarge(max: nat)

  // ---- Streams -------------------------------------------------------------

  /** How a stream may answer one `read` call that is not at end of file. */
  datatype Answer = Interrupted | Short(n: nat) | Broken

  datatype ReadOutcome = Bytes(data: seq<byte>) | WasInterrupted | Failed

  /** A byte stream that answers reads as short as it likes, or interrupted, and may break. */
  class Reader {
    var rest: seq<byte>
    var answers: seq<Answer>

    constructor (rest: seq<byte>, answers: seq<Answer>)
      ensures this.rest == rest && this.answers == answers
    {
      this.rest := rest;
      this.answers := answers;
    }

    /** The stream never reports an error other than `Interrupted`. */
    predicate Sound()
      reads this
    {
      Broken !in answers
    }

    method Read(want: nat) returns (r: ReadOutcome)
      requires want > 0
      modifies this
      ensures |answers| <= |old(answers)|
      ensures old(Sound()) ==> Sound() && !r.Failed?
      ensures r.WasInterrupted? ==> rest == old(rest) && |answers| < |old(answers)|
      ensures r.Bytes? ==> |r.data| <= want && old(rest) == r.data + rest
      ensures r.Bytes? && r.data == [] ==> old(rest) == []
    {
      var n := want;
      if answers != [] {
        var answer := answers[0];
        answers := answers[1..];
        match answer {
          case Interrupted => return WasInterrupted;
          case Broken => return Failed;
          case Short(k) => n := Min(want, Max(1, k));
        }
      }
      n := Min(n, |rest|);
      r := Bytes(rest[..n]);
      rest := rest[n..];
    }
  }

  /** Fill up to `want` bytes, stopping early only at end of file. */
  method ReadExactOrEof(reader: Reader, want: nat) returns (r: Result<seq<byte>, Error>)
    modifies reader
    ensures r.Ok? ==>
              var n := Min(want, |old(reader.rest)|);
              r.value == old(reader.rest)[..n] && reader.rest == old(reader.rest)[n..]
    ensures r.Err? ==> r.error == Io
    ensures old(reader.Sound()) ==> reader.Sound() && r.Ok?
  {
    var filled: seq<byte> := [];
    while |filled| < want
      invariant |filled| <= want
      invariant old(reader.rest) == filled + reader.rest
      invariant old(reader.Sound()) ==> reader.Sound()
      decreases want - |filled|, |reader.answers|
    {
      var step := reader.Read(want - |filled|);
      match step {
        case Bytes(data) =>
          if data == [] {
            break;
          }
          filled := filled + data;
        case WasInterrupted =>
        case Failed => return Err(Io);
      }
    }
    r := Ok(filled);
  }

  // ---- Frames --------------------------------------------------------------

  /** One Noise message behind its two-byte big-endian length. */
  function EncodeFrame(message: Bytes): (wire: Bytes)
    requires |message| <= NOISE_MAX_MESSAGE_LEN
    ensures |wire| == |message| + 2
  {
    [|message| / 256, |message| % 256] + message
  }

  datatype FrameRead =
    | Eof
    | Frame(body: Bytes, rest: Bytes)
    | Malformed(error: Error, rest: Bytes)

  /** What reading one frame does to a stream holding exactly `bytes`. */
  function ReadFrameSpec(bytes: Bytes): (r: FrameRead)
    ensures r.Frame? ==> |r.body| <= NOISE_MAX_MESSAGE_LEN && bytes == EncodeFrame(r.body) + r.rest
  {
    if |bytes| == 0 then Eof
    else if |bytes| == 1 then Malformed(TruncatedFrame(1, 2), [])
    else
      var want: nat := (bytes[0] as int) * 256 + bytes[1];
      if |bytes| - 2 < want then Malformed(TruncatedFrame(|bytes| - 2, want), [])
      else
        assert bytes == [bytes[0], bytes[1]] + bytes[2..2 + want] + bytes[2 + want..];
        Frame(bytes[2..2 + want], bytes[2 + want..])
  }

  /** Framing is unambiguous: a framed message at the head of a stream is read back exactly. */
  lemma FrameRoundTrip(message: Bytes, tail: Bytes)
    requires |message| <= NOISE_MAX_MESSAGE_LEN
    ensures ReadFrameSpec(EncodeFrame(message) + tail) == Frame(message, tail)
  {
    var bytes := EncodeFrame(message) + tail;
    assert bytes[2..2 + |message|] == message;
    assert bytes[2 + |message|..] == tail;
  }

  /** A frame cut anywhere but at its start or end is reported as truncated. */
  lemma FrameCut(message: Bytes, k: nat)
    requires |message| <= NOISE_MAX_MESSAGE_LEN
    requires 0 < k < |EncodeFrame(message)|
    ensures ReadFrameSpec(EncodeFrame(message)[..k]).Malformed?
    ensures ReadFrameSpec(EncodeFrame(message)[..k]).error.TruncatedFrame?
  {
    var cut := EncodeFrame(message)[..k];
    if k >= 2 {
      assert cut[0] == |message| / 256 && cut[1] == |message| % 256;
    }
  }

  method ReadFrame(reader: Reader) returns (r: Result<Option<Bytes>, Error>)
    modifies reader
    ensures old(reader.Sound()) ==> reader.Sound()
    ensures r.Ok? ==> r.value == match ReadFrameSpec(old(reader.rest))
                                 case Frame(body, _) => Some(body)
                                 case _ => None
    ensures r.Ok? ==> match ReadFrameSpec(old(reader.rest))
                      case Frame(_, rest) => reader.rest == rest
                      case Eof => reader.rest == old(reader.rest)
                      case Malformed(_, _) => false
    ensures r.Err? && r.error != Io ==>
              ReadFrameSpec(old(reader.rest)) == Malformed(r.error, reader.rest)
    ensures old(reader.Sound()) ==> !(r.Err? && r.error == Io)
  {
    var prefix := ReadExactOrEof(reader, 2);
    if prefix.Err? {
      return Err(prefix.error);
    }
    if |prefix.value| == 0 {
      return Ok(None);
    }
    if |prefix.value| != 2 {
      return Err(TruncatedFrame(|prefix.value|, 2));
    }
    var want: nat := (prefix.value[0] as int) * 256 + prefix.value[1];
    var body := ReadExactOrEof(reader, want);
    if body.Err? {
      return Err(body.error);
    }
    if |body.value| != want {
      return Err(TruncatedFrame(|body.value|, want));
    }
    ghost var bytes := old(reader.rest);
    assert bytes[2..][..want] == bytes[2..2 + want] && bytes[2..][want..] == bytes[2 + want..];
    r := Ok(Some(body.value));
  }

  // ---- Chunks --------------------------------------------------------------

  function ChunkCount(payload: Bytes): (n: nat)
    ensures n >= 1
    ensures (n - 1) * MAX_CHUNK_PAYLOAD_LEN <= |payload| <= n * MAX_CHUNK_PAYLOAD_LEN
    ensures |payload| > 0 ==> (n - 1) * MAX_CHUNK_PAYLOAD_LEN < |payload|
  {
    if |payload| == 0 then 1
    else (|payload| + MAX_CHUNK_PAYLOAD_LEN - 1) / MAX_CHUNK_PAYLOAD_LEN
  }

  /** The plaintext of chunk `i`: its continuation flag, then its slice of the payload. */
  function ChunkAt(payload: Bytes, i: nat): (chunk: Bytes)
    requires i < ChunkCount(payload)
    ensures 1 <= |chunk| <= NOISE_MAX_PLAINTEXT_LEN
  {
    var total := ChunkCount(payload);
    [if i + 1 == total then FLAG_FINAL else FLAG_MORE]
    + payload[i * MAX_CHUNK_PAYLOAD_LEN..Min((i + 1) * MAX_CHUNK_PAYLOAD_LEN, |payload|)]
  }

  /** What the chunks carry, their flags taken off. */
  function Bodies(chunks: seq<Bytes>): Bytes
    requires forall i :: 0 <= i < |chunks| ==> |chunks[i]| >= 1
  {
    if chunks == [] then [] else Bodies(chunks[..|chunks| - 1]) + chunks[|chunks| - 1][1..]
  }

  lemma {:induction false} SlicesJoin(payload: Bytes, chunks: seq<Bytes>)
    requires |chunks| <= ChunkCount(payload)
    requires forall i :: 0 <= i < |chunks| ==> |chunks[i]| >= 1 && chunks[i] == ChunkAt(payload, i)
    ensures Bodies(chunks) == payload[..Min(|chunks| * MAX_CHUNK_PAYLOAD_LEN, |payload|)]
  {
    if chunks != [] {
      var n := |chunks| - 1;
      SlicesJoin(payload, chunks[..n]);
      var from, to := n * MAX_CHUNK_PAYLOAD_LEN, Min((n + 1) * MAX_CHUNK_PAYLOAD_LEN, |payload|);
      assert chunks[n][1..] == payload[from..to];
      assert payload[..from] + payload[from..to] == payload[..to];
    }
  }

  /** Chunks that each fit one Noise message, of which the last alone is final, and that carry the payload. */
  function SplitIntoChunks(payload: Bytes): (chunks: seq<Bytes>)
    ensures |chunks| == ChunkCount(payload)
    ensures forall i :: 0 <= i < |chunks| ==>
              1 <= |chunks[i]| <= NOISE_MAX_PLAINTEXT_LEN
              && chunks[i][0] == if i == |chunks| - 1 then FLAG_FINAL else FLAG_MORE
    ensures Bodies(chunks) == payload
  {
    var chunks := seq(ChunkCount(payload), i requires 0 <= i < ChunkCount(payload) => ChunkAt(payload, i));
    SlicesJoin(payload, chunks);
    chunks
  }

  lemma ChunkIs(payload: Bytes, i: nat)
    requires i < ChunkCount(payload)
    ensures SplitIntoChunks(payload)[i] == ChunkAt(payload, i)
  {
  }

  function SplitChunkHeader(chunk: Bytes): (r: Result<(bool, Bytes), Error>) {
    if chunk == [] then Err(EmptyChunk)
    else if chunk[0] == FLAG_FINAL then Ok((true, chunk[1..]))
    else if chunk[0] == FLAG_MORE then Ok((false, chunk[1..]))
    else Err(BadContinuationFlag(chunk[0]))
  }

  /** A chunk is accepted exactly when it is one of the two known flags and a body. */
  lemma HeaderIsExact(chunk: Bytes, final: bool, body: Bytes)
    ensures SplitChunkHeader(chunk) == Ok((final, body)) <==> chunk == [if final then FLAG_FINAL else FLAG_MORE] + body
  {
    if chunk != [] {
      assert chunk == [chunk[0]] + chunk[1..];
    }
    assert ([if final then FLAG_FINAL else FLAG_MORE] + body)[1..] == body;
  }

  /** Reading the chunks back in order extends the payload slice by slice and ends on the last one. */
  lemma ChunkContinues(payload: Bytes, i: nat)
    requires i < ChunkCount(payload)
    ensures SplitChunkHeader(ChunkAt(payload, i)).Ok?
    ensures var (final, body) := SplitChunkHeader(ChunkAt(payload, i)).value;
            && (final <==> i + 1 == ChunkCount(payload))
            && (!final ==> |body| == MAX_CHUNK_PAYLOAD_LEN)
            && (!final ==> (i + 1) * MAX_CHUNK_PAYLOAD_LEN <= |payload|)
            && payload[..i * MAX_CHUNK_PAYLOAD_LEN] + body
               == payload[..Min((i + 1) * MAX_CHUNK_PAYLOAD_LEN, |payload|)]
            && (final ==> payload[..i * MAX_CHUNK_PAYLOAD_LEN] + body == payload)
  {
    var from, to := i * MAX_CHUNK_PAYLOAD_LEN, Min((i + 1) * MAX_CHUNK_PAYLOAD_LEN, |payload|);
    assert ChunkAt(payload, i)[1..] == payload[from..to];
    assert payload[..from] + payload[from..to] == payload[..to];
  }
}
