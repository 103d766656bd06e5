/** What the chunked Noise channel guarantees between a sender and a receiver. */
module NoiseChannel {
  import opened Wrappers
  import opened NoiseFraming
  import opened NoiseSession

  // ---- A whole conversation in one direction -------------------------------

  /** Messages, the chunk plaintexts they are sealed as, and the nonce at which each message starts. */
  datatype Conversation = Conversation(messages: seq<Bytes>, sent: seq<Bytes>, base: seq<nat>) {
    ghost predicate Valid() {
      && |base| == |messages| + 1
      && base[0] == 0
      && base[|messages|] == |sent|
      && FitNoise(sent)
      && (forall k, l {:trigger base[k], base[l]} :: 0 <= k <= l <= |messages| ==> base[k] <= base[l] <= |sent|)
      && (forall k {:trigger messages[k]} :: 0 <= k < |messages| ==> base[k + 1] == base[k] + ChunkCount(messages[k]))
      && (forall k, j {:trigger ChunkAt(messages[k], j)} ::
            0 <= k < |messages| && 0 <= j < ChunkCount(messages[k]) ==>
              base[k] + j < |sent| && sent[base[k] + j] == ChunkAt(messages[k], j))
    }
  }

  lemma LongerIsValid(v: Conversation, w: Conversation, last: Bytes)
    requires v.Valid()
    requires w == Conversation(v.messages + [last], v.sent + SplitIntoChunks(last), v.base + [|v.sent| + ChunkCount(last)])
    ensures w.Valid()
  {
    hide SplitIntoChunks;
    hide ChunkAt;
    forall k, j | 0 <= k < |w.messages| && 0 <= j < ChunkCount(w.messages[k])
      ensures w.base[k] + j < |w.sent| && w.sent[w.base[k] + j] == ChunkAt(w.messages[k], j)
    {
      if k < |v.messages| {
        assert w.messages[k] == v.messages[k];
        assert v.sent[v.base[k] + j] == ChunkAt(v.messages[k], j);
      } else {
        ChunkIs(last, j);
      }
    }
    forall k | 0 <= k < |w.messages| ensures w.base[k + 1] == w.base[k] + ChunkCount(w.messages[k]) {
      if k < |v.messages| {
        assert w.messages[k] == v.messages[k];
      }
    }
  }

  /** The conversation once another message is sealed. */
  function Longer(v: Conversation, last: Bytes): (w: Conversation)
    requires v.Valid()
    ensures w.Valid() && w.messages == v.messages + [last]
  {
    var w := Conversation(v.messages + [last], v.sent + SplitIntoChunks(last), v.base + [|v.sent| + ChunkCount(last)]);
    LongerIsValid(v, w, last);
    w
  }

  lemma NothingIsValid()
    ensures Conversation([], [], [0]).Valid()
  {
  }

  /** What an honest sender seals for `messages`. */
  function Converse(messages: seq<Bytes>): (v: Conversation)
    ensures v.messages == messages && v.Valid()
    decreases |messages|
  {
    hide Conversation.Valid;
    hide Longer;
    if messages == [] then
      NothingIsValid();
      Conversation([], [], [0])
    else
      assert messages == messages[..|messages| - 1] + [messages[|messages| - 1]];
      Longer(Converse(messages[..|messages| - 1]), messages[|messages| - 1])
  }

  /** The sender's frames for the chunks numbered `from` up to `to`. */
  ghost function Stretch(c: Cipher, sent: seq<Bytes>, from: nat, to: nat): Bytes
    requires GrowsByTag(c) && FitNoise(sent) && from <= to <= |sent|
  {
    Wire(c, from, sent[from..to])
  }

  /** The sender's frames for messages `k` up to `l`. */
  ghost function Span(c: Cipher, v: Conversation, k: nat, l: nat): Bytes
    requires GrowsByTag(c) && v.Valid() && k <= l <= |v.messages|
  {
    Stretch(c, v.sent, v.base[k], v.base[l])
  }

  /** The stream an honest sender produces for the first `k` messages. */
  ghost function WireOf(c: Cipher, v: Conversation, k: nat): Bytes
    requires GrowsByTag(c) && v.Valid() && k <= |v.messages|
  {
    Span(c, v, 0, k)
  }

  /** The messages returned up to the first error, and how reading ended. */
  datatype Transcript = Transcript(messages: seq<Bytes>, end: Result<(), Error>)

  function Prepend(messages: seq<Bytes>, t: Transcript): Transcript {
    Transcript(messages + t.messages, t.end)
  }

  /** Calling `Recv` until it reports a clean close or an error. */
  function RecvAll(c: Cipher, max: nat, nonce: nat, bytes: Bytes): Transcript
    decreases |bytes|
  {
    var r := RecvFrom(c, max, nonce, bytes, 0, []);
    match r.result
    case Err(error) => Transcript([], Err(error))
    case Ok(None) => Transcript([], Ok(()))
    case Ok(Some(message)) =>
      Prepend([message], RecvAll(c, max, r.nonce, r.rest))
  }

  // ---- Streams of frames ---------------------------------------------------

  lemma Associative(a: Bytes, b: Bytes, c: Bytes)
    ensures a + (b + c) == (a + b) + c
  {
  }

  lemma {:induction false} WireAppend(c: Cipher, n: nat, a: seq<Bytes>, b: seq<Bytes>)
    requires GrowsByTag(c) && FitNoise(a) && FitNoise(b)
    ensures FitNoise(a + b)
    ensures Wire(c, n, a + b) == Wire(c, n, a) + Wire(c, n + |a|, b)
    decreases |a|
  {
    if a == [] {
      assert a + b == b;
    } else {
      WireAppend(c, n + 1, a[1..], b);
      assert (a + b)[0] == a[0] && (a + b)[1..] == a[1..] + b;
      WireHead(c, n, a);
      WireHead(c, n, a + b);
      hide Wire;
      hide EncodeFrame;
      Associative(EncodeFrame(c.seal(n, a[0])), Wire(c, n + 1, a[1..]), Wire(c, n + |a|, b));
    }
  }

  lemma StretchHead(c: Cipher, sent: seq<Bytes>, n: nat, to: nat)
    requires GrowsByTag(c) && FitNoise(sent) && n < to <= |sent|
    ensures Stretch(c, sent, n, to) == EncodeFrame(c.seal(n, sent[n])) + Stretch(c, sent, n + 1, to)
  {
    assert sent[n..to][0] == sent[n] && sent[n..to][1..] == sent[n + 1..to];
  }

  lemma StretchAppend(c: Cipher, sent: seq<Bytes>, from: nat, mid: nat, to: nat)
    requires GrowsByTag(c) && FitNoise(sent) && from <= mid <= to <= |sent|
    ensures Stretch(c, sent, from, to) == Stretch(c, sent, from, mid) + Stretch(c, sent, mid, to)
  {
    assert sent[from..to] == sent[from..mid] + sent[mid..to];
    WireAppend(c, from, sent[from..mid], sent[mid..to]);
  }

  lemma SpanAppend(c: Cipher, v: Conversation, k: nat, m: nat, l: nat)
    requires GrowsByTag(c) && v.Valid() && k <= m <= l <= |v.messages|
    ensures Span(c, v, k, l) == Span(c, v, k, m) + Span(c, v, m, l)
  {
    StretchAppend(c, v.sent, v.base[k], v.base[m], v.base[l]);
  }

  // ---- One message ---------------------------------------------------------

  ghost predicate Within(v: Conversation, max: nat, k: nat, j: nat) {
    && v.Valid()
    && k < |v.messages| && j < ChunkCount(v.messages[k])
    && j * MAX_CHUNK_PAYLOAD_LEN <= Min(max, |v.messages[k]|)
    && j <= MaxChunks(max)
  }

  /** Receiving, `j` chunks into message `k`, from a stream holding `bytes`. */
  ghost function Mid(c: Cipher, v: Conversation, max: nat, k: nat, j: nat, bytes: Bytes): Received
    requires Within(v, max, k, j)
  {
    RecvFrom(c, max, v.base[k] + j, bytes, j, v.messages[k][..j * MAX_CHUNK_PAYLOAD_LEN])
  }

  lemma StartOfMessage(c: Cipher, v: Conversation, max: nat, k: nat, bytes: Bytes)
    requires v.Valid() && k < |v.messages|
    ensures Within(v, max, k, 0)
    ensures Mid(c, v, max, k, 0, bytes) == RecvFrom(c, max, v.base[k], bytes, 0, [])
  {
    assert v.messages[k][..0] == [];
  }

  /** `bytes` begins with the frame the sender sealed under nonce `n`. */
  ghost predicate NextIs(c: Cipher, sent: seq<Bytes>, n: nat, bytes: Bytes) {
    && n < |sent|
    && ReadFrameSpec(bytes).Frame?
    && ReadFrameSpec(bytes).body == c.seal(n, sent[n])
  }

  /** The sender's next chunk takes reassembly exactly one step on. */
  lemma HonestChunk(c: Cipher, v: Conversation, max: nat, k: nat, j: nat, bytes: Bytes)
    requires OpensWhatWasSealed(c, v.sent) && Within(v, max, k, j)
    requires NextIs(c, v.sent, v.base[k] + j, bytes)
    ensures var r, rest := Mid(c, v, max, k, j, bytes), ReadFrameSpec(bytes).rest;
            if |v.messages[k]| > max && (j + 1) * MAX_CHUNK_PAYLOAD_LEN > max then
              r.result == Err(MessageTooLarge(max))
            else if j + 1 == ChunkCount(v.messages[k]) then
              r == Received(Ok(Some(v.messages[k])), v.base[k] + j + 1, rest, j + 1)
            else
              Within(v, max, k, j + 1) && r == Mid(c, v, max, k, j + 1, rest)
  {
    ChunkContinues(v.messages[k], j);
    assert v.sent[v.base[k] + j] == ChunkAt(v.messages[k], j);
  }

  /** Under the laws, only the sender's next frame is accepted, and only a close between messages is clean. */
  lemma OnlyTheNextFrame(c: Cipher, v: Conversation, max: nat, k: nat, j: nat, bytes: Bytes)
    requires Unforgeable(c, v.sent) && Within(v, max, k, j)
    requires Mid(c, v, max, k, j, bytes).result.Ok?
    ensures if ReadFrameSpec(bytes).Frame? then NextIs(c, v.sent, v.base[k] + j, bytes)
            else Mid(c, v, max, k, j, bytes).result == Ok(None) && j == 0 && bytes == []
  {
  }

  // ---- Integrity -----------------------------------------------------------

  /** Reception of message `k` is faithful: the message itself, out of exactly the sender's frames. */
  ghost predicate Faithful(c: Cipher, v: Conversation, k: nat, from: nat, bytes: Bytes, r: Received)
    requires GrowsByTag(c) && v.Valid()
  {
    && k < |v.messages|
    && r.result == Ok(Some(v.messages[k]))
    && from <= r.nonce == v.base[k + 1]
    && bytes == Stretch(c, v.sent, from, r.nonce) + r.rest
  }

  lemma FaithfulStep(c: Cipher, v: Conversation, k: nat, from: nat, bytes: Bytes, r: Received)
    requires GrowsByTag(c) && v.Valid() && k < |v.messages|
    requires NextIs(c, v.sent, from, bytes)
    requires Faithful(c, v, k, from + 1, ReadFrameSpec(bytes).rest, r)
    ensures Faithful(c, v, k, from, bytes, r)
  {
    var read := ReadFrameSpec(bytes);
    StretchHead(c, v.sent, from, r.nonce);
    Associative(EncodeFrame(read.body), Stretch(c, v.sent, from + 1, r.nonce), r.rest);
  }

  lemma LastChunkIsFaithful(c: Cipher, v: Conversation, k: nat, rest: Bytes, r: Received)
    requires GrowsByTag(c) && v.Valid() && k < |v.messages|
    requires r.result == Ok(Some(v.messages[k])) && r.nonce == v.base[k + 1] && r.rest == rest
    ensures Faithful(c, v, k, r.nonce, rest, r)
  {
    assert Stretch(c, v.sent, r.nonce, r.nonce) == [];
    assert rest == [] + r.rest;
  }

  /** Inside message `k` after `j` of its chunks, any stream at all yields an error, a clean close at
      once, or a faithful reception of that very message. */
  lemma {:induction false} RecvIsFaithful(c: Cipher, v: Conversation, max: nat, k: nat, j: nat, bytes: Bytes)
    requires GrowsByTag(c) && Unforgeable(c, v.sent) && OpensWhatWasSealed(c, v.sent)
    requires Within(v, max, k, j)
    ensures var r := Mid(c, v, max, k, j, bytes);
            || r.result.Err?
            || (r.result == Ok(None) && j == 0 && bytes == [])
            || Faithful(c, v, k, v.base[k] + j, bytes, r)
    decreases ChunkCount(v.messages[k]) - j
  {
    var r := Mid(c, v, max, k, j, bytes);
    var read := ReadFrameSpec(bytes);
    assert v.Valid() && k < |v.messages|;
    assert v.base[k + 1] == v.base[k] + ChunkCount(v.messages[k]);
    hide Conversation.Valid;
    hide Mid;
    hide ReadFrameSpec;
    if r.result.Ok? {
      OnlyTheNextFrame(c, v, max, k, j, bytes);
      if read.Frame? {
        HonestChunk(c, v, max, k, j, bytes);
        hide Unforgeable;
        hide OpensWhatWasSealed;
        if j + 1 < ChunkCount(v.messages[k]) {
          RecvIsFaithful(c, v, max, k, j + 1, read.rest);
        } else {
          LastChunkIsFaithful(c, v, k, read.rest, r);
        }
        FaithfulStep(c, v, k, v.base[k] + j, bytes, r);
      }
    }
  }

  /** After the last message, nothing is accepted: only a close on the spot is clean. */
  lemma RecvBeyondTheEnd(c: Cipher, v: Conversation, max: nat, bytes: Bytes)
    requires v.Valid() && Unforgeable(c, v.sent)
    ensures var r := RecvFrom(c, max, |v.sent|, bytes, 0, []);
            r.result.Ok? ==> r.result == Ok(None) && bytes == []
  {
  }

  /** From the start of message `k`: what is returned is a run of the messages from `k` on, and a
      clean end means the stream was exactly the sender's frames for them. */
  ghost predicate Intact(c: Cipher, v: Conversation, k: nat, bytes: Bytes, t: Transcript)
    requires GrowsByTag(c) && v.Valid()
  {
    var upto := k + |t.messages|;
    && upto <= |v.messages|
    && t.messages == v.messages[k..upto]
    && (t.end.Ok? ==> bytes == Stretch(c, v.sent, v.base[k], v.base[upto]))
  }

  lemma {:induction false} IntactStep(c: Cipher, v: Conversation, k: nat, bytes: Bytes, r: Received, later: Transcript)
    requires GrowsByTag(c) && v.Valid() && k < |v.messages|
    requires Faithful(c, v, k, v.base[k], bytes, r)
    requires Intact(c, v, k + 1, r.rest, later)
    ensures Intact(c, v, k, bytes, Transcript([v.messages[k]] + later.messages, later.end))
  {
    var upto := k + 1 + |later.messages|;
    assert v.messages[k..upto] == [v.messages[k]] + v.messages[k + 1..upto];
    StretchAppend(c, v.sent, v.base[k], r.nonce, v.base[upto]);
  }

  lemma {:induction false} IntegrityFrom(c: Cipher, v: Conversation, max: nat, k: nat, bytes: Bytes)
    requires GrowsByTag(c) && v.Valid() && Unforgeable(c, v.sent) && OpensWhatWasSealed(c, v.sent)
    requires k <= |v.messages|
    ensures Intact(c, v, k, bytes, RecvAll(c, max, v.base[k], bytes))
    decreases |bytes|
  {
    var r := RecvFrom(c, max, v.base[k], bytes, 0, []);
    OneCall(c, v, max, k, bytes);
    if r.result.Ok? && r.result.value.Some? {
      IntegrityFrom(c, v, max, k + 1, r.rest);
      IntactStep(c, v, k, bytes, r, RecvAll(c, max, r.nonce, r.rest));
    } else {
      IntactStop(c, v, k, bytes, RecvAll(c, max, v.base[k], bytes));
    }
  }

  /** One call between messages: an error, a clean close of an empty stream, or the next message. */
  lemma OneCall(c: Cipher, v: Conversation, max: nat, k: nat, bytes: Bytes)
    requires GrowsByTag(c) && v.Valid() && Unforgeable(c, v.sent) && OpensWhatWasSealed(c, v.sent)
    requires k <= |v.messages|
    ensures var r := RecvFrom(c, max, v.base[k], bytes, 0, []);
            || r.result.Err?
            || (r.result == Ok(None) && bytes == [])
            || Faithful(c, v, k, v.base[k], bytes, r)
  {
    if k == |v.messages| {
      RecvBeyondTheEnd(c, v, max, bytes);
    } else {
      StartOfMessage(c, v, max, k, bytes);
      RecvIsFaithful(c, v, max, k, 0, bytes);
    }
  }

  lemma IntactStop(c: Cipher, v: Conversation, k: nat, bytes: Bytes, t: Transcript)
    requires GrowsByTag(c) && v.Valid() && k <= |v.messages|
    requires t.messages == [] && (t.end.Ok? ==> bytes == [])
    ensures Intact(c, v, k, bytes, t)
  {
  }

  /** Channel integrity. Of any delivered stream, cut, spliced, reordered or altered, the messages
      returned before the first error are the first messages sent, and reading ends cleanly exactly
      when the stream is the sender's own, up to the end of one of its messages. */
  lemma {:induction false} Integrity(c: Cipher, messages: seq<Bytes>, max: nat, bytes: Bytes)
    requires var v := Converse(messages);
             GrowsByTag(c) && OpensWhatWasSealed(c, v.sent) && Unforgeable(c, v.sent)
    ensures var t := RecvAll(c, max, 0, bytes);
            && t.messages <= messages
            && (t.end.Ok? <==> bytes == WireOf(c, Converse(messages), |t.messages|))
  {
    var v, t := Converse(messages), RecvAll(c, max, 0, bytes);
    IntegrityFrom(c, v, max, 0, bytes);
    var k := |t.messages|;
    if bytes == WireOf(c, v, k) {
      RecvAllBounded(c, max, 0, bytes);
      DeliverPrefix(c, v, max, 0, k, []);
      assert bytes == bytes + [];
    }
  }

  // ---- Delivery ------------------------------------------------------------

  /** The sender's frames for message `k` from its chunk `j` on. */
  ghost function Remaining(c: Cipher, v: Conversation, k: nat, j: nat): Bytes
    requires GrowsByTag(c) && v.Valid() && k < |v.messages| && j <= ChunkCount(v.messages[k])
  {
    Stretch(c, v.sent, v.base[k] + j, v.base[k + 1])
  }

  lemma RemainingHead(c: Cipher, v: Conversation, k: nat, j: nat, tail: Bytes)
    requires GrowsByTag(c) && v.Valid() && k < |v.messages| && j < ChunkCount(v.messages[k])
    ensures var bytes := Remaining(c, v, k, j) + tail;
            && NextIs(c, v.sent, v.base[k] + j, bytes)
            && ReadFrameSpec(bytes).rest == Remaining(c, v, k, j + 1) + tail
    ensures Remaining(c, v, k, ChunkCount(v.messages[k])) + tail == tail
  {
    var n := v.base[k] + j;
    assert v.sent[n] == ChunkAt(v.messages[k], j);
    var frame := c.seal(n, v.sent[n]);
    StretchHead(c, v.sent, n, v.base[k + 1]);
    Associative(EncodeFrame(frame), Remaining(c, v, k, j + 1), tail);
    FrameRoundTrip(frame, Remaining(c, v, k, j + 1) + tail);
  }

  /** From `j` chunks into message `k`, the rest of its frames deliver it, or are refused for its size. */
  lemma {:induction false} DeliverOne(c: Cipher, v: Conversation, max: nat, k: nat, j: nat, tail: Bytes)
    requires GrowsByTag(c) && OpensWhatWasSealed(c, v.sent)
    requires Within(v, max, k, j)
    ensures var r := Mid(c, v, max, k, j, Remaining(c, v, k, j) + tail);
            if |v.messages[k]| <= max then
              r == Received(Ok(Some(v.messages[k])), v.base[k + 1], tail, ChunkCount(v.messages[k]))
            else
              r.result == Err(MessageTooLarge(max))
    decreases ChunkCount(v.messages[k]) - j
  {
    RemainingHead(c, v, k, j, tail);
    HonestChunk(c, v, max, k, j, Remaining(c, v, k, j) + tail);
    if !(|v.messages[k]| > max && (j + 1) * MAX_CHUNK_PAYLOAD_LEN > max) && j + 1 < ChunkCount(v.messages[k]) {
      DeliverOne(c, v, max, k, j + 1, tail);
    }
  }

  lemma DeliverNext(c: Cipher, v: Conversation, max: nat, k: nat, rest: Bytes)
    requires GrowsByTag(c) && v.Valid() && OpensWhatWasSealed(c, v.sent)
    requires k < |v.messages|
    ensures RecvAll(c, max, v.base[k], Span(c, v, k, k + 1) + rest)
            == if |v.messages[k]| <= max then Prepend([v.messages[k]], RecvAll(c, max, v.base[k + 1], rest))
               else Transcript([], Err(MessageTooLarge(max)))
  {
    StartOfMessage(c, v, max, k, Span(c, v, k, k + 1) + rest);
    assert Span(c, v, k, k + 1) == Remaining(c, v, k, 0);
    DeliverOne(c, v, max, k, 0, rest);
  }

  lemma {:induction false} DeliverPrefix(c: Cipher, v: Conversation, max: nat, k: nat, l: nat, tail: Bytes)
    requires GrowsByTag(c) && v.Valid() && OpensWhatWasSealed(c, v.sent)
    requires k <= l <= |v.messages|
    requires forall i :: k <= i < l ==> |v.messages[i]| <= max
    ensures RecvAll(c, max, v.base[k], Span(c, v, k, l) + tail)
            == Prepend(v.messages[k..l], RecvAll(c, max, v.base[l], tail))
    decreases l - k
  {
    if k == l {
      assert Span(c, v, k, l) + tail == tail;
    } else {
      SplitHead(c, v, k, l, tail);
      DeliverNext(c, v, max, k, Span(c, v, k + 1, l) + tail);
      DeliverPrefix(c, v, max, k + 1, l, tail);
      PrependHead(v.messages, k, l, RecvAll(c, max, v.base[l], tail));
    }
  }

  lemma SplitHead(c: Cipher, v: Conversation, k: nat, l: nat, tail: Bytes)
    requires GrowsByTag(c) && v.Valid() && k < l <= |v.messages|
    ensures Span(c, v, k, l) + tail == Span(c, v, k, k + 1) + (Span(c, v, k + 1, l) + tail)
  {
    SpanAppend(c, v, k, k + 1, l);
    Associative(Span(c, v, k, k + 1), Span(c, v, k + 1, l), tail);
  }

  lemma PrependHead(messages: seq<Bytes>, k: nat, l: nat, t: Transcript)
    requires k < l <= |messages|
    ensures Prepend([messages[k]], Prepend(messages[k + 1..l], t)) == Prepend(messages[k..l], t)
  {
    assert messages[k..l] == [messages[k]] + messages[k + 1..l];
  }

  /** Nothing longer than the cap is ever returned. */
  lemma {:induction false} RecvAllBounded(c: Cipher, max: nat, nonce: nat, bytes: Bytes)
    ensures forall i :: 0 <= i < |RecvAll(c, max, nonce, bytes).messages| ==>
                          |RecvAll(c, max, nonce, bytes).messages[i]| <= max
    decreases |bytes|
  {
    var r := RecvFrom(c, max, nonce, bytes, 0, []);
    if r.result.Ok? && r.result.value.Some? {
      RecvAllBounded(c, max, r.nonce, r.rest);
    }
  }

  lemma ChunksOf(v: Conversation, k: nat)
    requires v.Valid() && k < |v.messages|
    ensures v.base[k + 1] <= |v.sent| && v.base[k] <= v.base[k + 1]
    ensures v.sent[v.base[k]..v.base[k + 1]] == SplitIntoChunks(v.messages[k])
  {
    assert v.base[k + 1] == v.base[k] + ChunkCount(v.messages[k]);
    forall j | 0 <= j < ChunkCount(v.messages[k])
      ensures v.sent[v.base[k] + j] == SplitIntoChunks(v.messages[k])[j]
    {
      assert v.sent[v.base[k] + j] == ChunkAt(v.messages[k], j);
    }
  }

  /** What `Send` appends for message `k` is what the channel's stream grows by. */
  lemma {:induction false} SendExtendsTheWire(c: Cipher, messages: seq<Bytes>, k: nat)
    requires GrowsByTag(c) && k < |messages|
    ensures var v := Converse(messages);
            WireOf(c, v, k + 1) == WireOf(c, v, k) + Wire(c, v.base[k], SplitIntoChunks(messages[k]))
  {
    var v := Converse(messages);
    hide Converse;
    hide SplitIntoChunks;
    hide Wire;
    SpanAppend(c, v, 0, k, k + 1);
    ChunksOf(v, k);
  }

  lemma AllArrive(c: Cipher, v: Conversation, max: nat)
    requires GrowsByTag(c) && v.Valid() && OpensWhatWasSealed(c, v.sent)
    requires forall i :: 0 <= i < |v.messages| ==> |v.messages[i]| <= max
    ensures RecvAll(c, max, 0, WireOf(c, v, |v.messages|)) == Transcript(v.messages, Ok(()))
  {
    var n := |v.messages|;
    assert v.base[0] == 0;
    assert RecvAll(c, max, v.base[n], []) == Transcript([], Ok(()));
    DeliverPrefix(c, v, max, 0, n, []);
    hide RecvAll;
    assert WireOf(c, v, n) + [] == WireOf(c, v, n);
    assert v.messages[0..n] + [] == v.messages;
  }

  lemma OverlongStops(c: Cipher, v: Conversation, max: nat, first: nat, tail: Bytes)
    requires GrowsByTag(c) && v.Valid() && OpensWhatWasSealed(c, v.sent)
    requires first < |v.messages| && |v.messages[first]| > max
    requires forall i :: 0 <= i < first ==> |v.messages[i]| <= max
    ensures RecvAll(c, max, 0, WireOf(c, v, first + 1) + tail) == Transcript(v.messages[..first], Err(MessageTooLarge(max)))
  {
    assert v.base[0] == 0;
    hide RecvAll;
    SpanAppend(c, v, 0, first, first + 1);
    Associative(Span(c, v, 0, first), Span(c, v, first, first + 1), tail);
    DeliverPrefix(c, v, max, 0, first, Span(c, v, first, first + 1) + tail);
    DeliverNext(c, v, max, first, tail);
    assert v.messages[0..first] + [] == v.messages[..first];
  }

  /** Exact round trip. Everything up to the first message over the cap is returned unchanged; then
      comes a clean end, or `MessageTooLarge` (never `TooManyChunks`) for that message. */
  lemma {:induction false} RoundTrip(c: Cipher, messages: seq<Bytes>, max: nat, first: nat, tail: Bytes)
    requires GrowsByTag(c) && OpensWhatWasSealed(c, Converse(messages).sent)
    requires first <= |messages| && forall i :: 0 <= i < first ==> |messages[i]| <= max
    ensures first == |messages| ==>
              RecvAll(c, max, 0, WireOf(c, Converse(messages), first)) == Transcript(messages, Ok(()))
    ensures first < |messages| && |messages[first]| > max ==>
              RecvAll(c, max, 0, WireOf(c, Converse(messages), first + 1) + tail)
              == Transcript(messages[..first], Err(MessageTooLarge(max)))
  {
    hide Converse;
    hide RecvAll;
    hide OpensWhatWasSealed;
    if first == |messages| {
      AllArrive(c, Converse(messages), max);
    } else if |messages[first]| > max {
      OverlongStops(c, Converse(messages), max, first, tail);
    }
  }

  /** Fewer bytes than message `k` takes on the wire yield nothing: a clean close only if there are none. */
  lemma NothingFromPart(c: Cipher, v: Conversation, max: nat, k: nat, part: Bytes)
    requires GrowsByTag(c) && v.Valid() && OpensWhatWasSealed(c, v.sent) && Unforgeable(c, v.sent)
    requires k < |v.messages| ==> |part| < |Span(c, v, k, k + 1)|
    requires k <= |v.messages|
    ensures var t := RecvAll(c, max, v.base[k], part);
            t.messages == [] && (t.end.Ok? <==> part == [])
  {
    OneCall(c, v, max, k, part);
  }

  /** Truncation. A stream cut short delivers every message that lies wholly before the cut and no
      other, and ends cleanly exactly when the cut falls between two messages. */
  lemma CutShort(c: Cipher, messages: seq<Bytes>, max: nat, cut: nat, k: nat)
    requires var v := Converse(messages);
             GrowsByTag(c) && OpensWhatWasSealed(c, v.sent) && Unforgeable(c, v.sent)
    requires forall i :: 0 <= i < |messages| ==> |messages[i]| <= max
    requires cut <= |WireOf(c, Converse(messages), |messages|)| && k <= |messages|
    requires |WireOf(c, Converse(messages), k)| <= cut
    requires k < |messages| ==> cut < |WireOf(c, Converse(messages), k + 1)|
    ensures var t := RecvAll(c, max, 0, WireOf(c, Converse(messages), |messages|)[..cut]);
            && t.messages == messages[..k]
            && (t.end.Ok? <==> cut == |WireOf(c, Converse(messages), k)|)
  {
    var v := Converse(messages);
    hide Converse;
    hide RecvAll;
    hide OpensWhatWasSealed;
    hide Unforgeable;
    hide Stretch;
    var whole := WireOf(c, v, k);
    SpanAppend(c, v, 0, k, |messages|);
    var part := WireOf(c, v, |messages|)[|whole|..cut];
    assert WireOf(c, v, |messages|)[..cut] == whole + part;
    if k < |messages| {
      SpanAppend(c, v, 0, k, k + 1);
    }
    DeliverUntil(c, v, max, k, part);
  }

  lemma DeliverUntil(c: Cipher, v: Conversation, max: nat, k: nat, part: Bytes)
    requires GrowsByTag(c) && v.Valid() && OpensWhatWasSealed(c, v.sent) && Unforgeable(c, v.sent)
    requires forall i :: 0 <= i < |v.messages| ==> |v.messages[i]| <= max
    requires k <= |v.messages|
    requires k < |v.messages| ==> |part| < |Span(c, v, k, k + 1)|
    ensures var t := RecvAll(c, max, 0, WireOf(c, v, k) + part);
            t.messages == v.messages[..k] && (t.end.Ok? <==> part == [])
  {
    DeliverPrefix(c, v, max, 0, k, part);
    NothingFromPart(c, v, max, k, part);
    assert v.messages[0..k] + [] == v.messages[..k];
  }
}
