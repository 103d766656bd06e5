/** The push-driven transport agrees with what was sent, however the bytes are cut into pushes. */
module PushAgreement {
  import opened Wrappers
  import opened NoiseFraming
  import opened NoiseSession
  import opened NoiseChannel
  import opened PushTransport

  // ---- Runs of the caller's operations -------------------------------------

  datatype Op = Push(data: Bytes) | ReadHandshake | Promote | Next

  /** Before promotion, `read` says whether the one inbound handshake message has been consumed. */
  datatype Client =
    | Shaking(buffer: Bytes, read: bool)
    | Running(live: Live)

  /** A client, with everything pushed so far, what the handshake took of it, and what was delivered. */
  datatype World = World(client: Client, pushed: Bytes, opening: Bytes, delivered: seq<Bytes>)

  const START: World := World(Shaking([], false), [], [], [])

  /** A caller reads one handshake message, then promotes; pushes and reads come at any time. */
  predicate Legal(w: World, op: Op) {
    match op
    case Push(_) => true
    case ReadHandshake => w.client.Shaking? && !w.client.read
    case Promote => w.client.Shaking? && w.client.read
    case Next => w.client.Running?
  }

  /** `accept` says which handshake frame bodies the state machine decrypts. */
  function Step(c: Cipher, accept: Bytes -> bool, w: World, op: Op): World
    requires Legal(w, op)
  {
    match op
    case Push(data) =>
      (match w.client
       case Shaking(buffer, read) =>
         (match PushBounded(buffer, data)
          case Ok(grown) => w.(client := Shaking(grown, read), pushed := w.pushed + data)
          case Err(_) => w)
       case Running(live) =>
         var (after, result) := PushStep(live, data);
         w.(client := Running(after), pushed := if result.Ok? then w.pushed + data else w.pushed))
    case ReadHandshake =>
      (match ReadFrameSpec(w.client.buffer)
       case Frame(body, rest) =>
         w.(client := Shaking(rest, accept(body)), opening := w.opening + EncodeFrame(body))
       case _ => w)
    case Promote => w.(client := Running(Live(0, w.client.buffer, false)))
    case Next =>
      var (after, result) := NextStep(c, w.client.live);
      w.(client := Running(after),
         delivered := if result.Ok? && result.value.Some? then w.delivered + [result.value.value] else w.delivered)
  }

  ghost predicate IsRun(c: Cipher, accept: Bytes -> bool, ops: seq<Op>, worlds: seq<World>) {
    && |worlds| == |ops| + 1
    && worlds[0] == START
    && forall i :: 0 <= i < |ops| ==>
                     Legal(worlds[i], ops[i]) && worlds[i + 1] == Step(c, accept, worlds[i], ops[i])
  }

  // ---- Any stream at all ---------------------------------------------------

  function Buffered(client: Client): Bytes {
    if client.Shaking? then client.buffer else client.live.inbound
  }

  predicate Failed(client: Client) {
    client.Running? && client.live.failed
  }

  /** Only messages sent, in order; and unless failed, everything pushed is what the handshake took,
      then exactly the sender's frames for the messages delivered, then what is still buffered. */
  ghost predicate Tracks(c: Cipher, v: Conversation, w: World)
    requires GrowsByTag(c) && v.Valid()
  {
    && |Buffered(w.client)| <= MAX_INBOUND_BUFFER
    && w.delivered <= v.messages
    && (w.client.Shaking? ==> w.delivered == [])
    && (w.client.Running? && !Failed(w.client) ==> w.client.live.nonce == v.base[|w.delivered|])
    && (!Failed(w.client) ==>
          w.pushed == w.opening + (WireOf(c, v, |w.delivered|) + Buffered(w.client)))
  }

  lemma TakesTheWholeFrame(c: Cipher, max: nat, nonce: nat, frame: Bytes)
    requires ReadFrameSpec(frame).Frame? && ReadFrameSpec(frame).rest == []
    requires RecvFrom(c, max, nonce, frame, 0, []).result.Ok?
    ensures RecvFrom(c, max, nonce, frame, 0, []).rest == []
  {
  }

  lemma CompleteFrameStandsAlone(buffer: Bytes)
    requires CompleteFrameLen(buffer).Some?
    ensures var total := CompleteFrameLen(buffer).value;
            ReadFrameSpec(buffer[..total]) == Frame(ReadFrameSpec(buffer).body, [])
  {
    var body := ReadFrameSpec(buffer).body;
    FrameRoundTrip(body, []);
    assert EncodeFrame(body) + [] == EncodeFrame(body);
  }

  lemma NextTracks(c: Cipher, v: Conversation, live: Live, k: nat)
    requires GrowsByTag(c) && v.Valid() && OpensWhatWasSealed(c, v.sent) && Unforgeable(c, v.sent)
    requires k <= |v.messages| && !live.failed && live.nonce == v.base[k]
    ensures var (after, result) := NextStep(c, live);
            && (!after.failed && result == Ok(None) ==> after == live)
            && (result.Err? ==> after.failed && after.inbound == live.inbound)
            && (result.Ok? && result.value.Some? ==>
                  && k < |v.messages| && result.value.value == v.messages[k]
                  && !after.failed && after.nonce == v.base[k + 1]
                  && live.inbound == Span(c, v, k, k + 1) + after.inbound)
  {
    if CompleteFrameLen(live.inbound).Some? {
      var total := CompleteFrameLen(live.inbound).value;
      var frame := live.inbound[..total];
      CompleteFrameStandsAlone(live.inbound);
      OneCall(c, v, MAX_CHUNK_PAYLOAD_LEN, k, frame);
      var r := RecvFrom(c, MAX_CHUNK_PAYLOAD_LEN, live.nonce, frame, 0, []);
      if r.result.Ok? {
        TakesTheWholeFrame(c, MAX_CHUNK_PAYLOAD_LEN, live.nonce, frame);
        assert live.inbound == frame + live.inbound[total..];
      }
    }
  }

  lemma StepTracks(c: Cipher, accept: Bytes -> bool, v: Conversation, w: World, op: Op)
    requires GrowsByTag(c) && v.Valid() && OpensWhatWasSealed(c, v.sent) && Unforgeable(c, v.sent)
    requires Tracks(c, v, w) && Legal(w, op)
    ensures Tracks(c, v, Step(c, accept, w, op))
  {
    assert WireOf(c, v, 0) == [];
    hide Wire;
    hide RecvFrom;
    match op
    case Push(data) =>
      if PushBounded(Buffered(w.client), data).Ok? {
        PushTracks(c, v, w, data);
      }
    case ReadHandshake =>
      var head := ReadFrameSpec(w.client.buffer);
      if head.Frame? {
        Associative(w.opening, EncodeFrame(head.body), head.rest);
        assert [] + w.client.buffer == w.client.buffer && [] + head.rest == head.rest;
      }
    case Promote =>
    case Next =>
      NextKeepsTrack(c, accept, v, w);
  }

  lemma PushTracks(c: Cipher, v: Conversation, w: World, data: Bytes)
    requires GrowsByTag(c) && v.Valid() && Tracks(c, v, w)
    ensures !Failed(w.client) ==>
              w.pushed + data == w.opening + (WireOf(c, v, |w.delivered|) + (Buffered(w.client) + data))
  {
    Associative(WireOf(c, v, |w.delivered|), Buffered(w.client), data);
    Associative(w.opening, WireOf(c, v, |w.delivered|) + Buffered(w.client), data);
  }

  lemma NextKeepsTrack(c: Cipher, accept: Bytes -> bool, v: Conversation, w: World)
    requires GrowsByTag(c) && v.Valid() && OpensWhatWasSealed(c, v.sent) && Unforgeable(c, v.sent)
    requires Tracks(c, v, w) && w.client.Running?
    ensures Tracks(c, v, Step(c, accept, w, Next))
  {
    if !w.client.live.failed {
      NextTracks(c, v, w.client.live, |w.delivered|);
      var (after, result) := NextStep(c, w.client.live);
      if result.Ok? && result.value.Some? {
        OneMoreTracks(c, v, w, after);
      }
    }
  }

  lemma OneMoreTracks(c: Cipher, v: Conversation, w: World, after: Live)
    requires GrowsByTag(c) && v.Valid() && Tracks(c, v, w) && w.client.Running? && !w.client.live.failed
    requires var k := |w.delivered|;
             k < |v.messages| && !after.failed && after.nonce == v.base[k + 1]
             && w.client.live.inbound == Span(c, v, k, k + 1) + after.inbound
    ensures Tracks(c, v, w.(client := Running(after), delivered := w.delivered + [v.messages[|w.delivered|]]))
  {
    var k := |w.delivered|;
    SpanAppend(c, v, 0, k, k + 1);
    Associative(Span(c, v, 0, k), Span(c, v, k, k + 1), after.inbound);
  }

  /** Whatever is pushed, in whatever pieces, on every run: only the sender's messages come out, in
      order, the buffer stays bounded, and what was consumed is exactly the sender's frames. */
  lemma {:induction false} EveryRunTracks(c: Cipher, accept: Bytes -> bool, messages: seq<Bytes>, ops: seq<Op>, worlds: seq<World>, i: nat)
    requires GrowsByTag(c) && OpensWhatWasSealed(c, Converse(messages).sent) && Unforgeable(c, Converse(messages).sent)
    requires IsRun(c, accept, ops, worlds) && i <= |ops|
    ensures Tracks(c, Converse(messages), worlds[i])
  {
    var v := Converse(messages);
    if i == 0 {
      assert WireOf(c, v, 0) == [];
    } else {
      EveryRunTracks(c, accept, messages, ops, worlds, i - 1);
      StepTracks(c, accept, v, worlds[i - 1], ops[i - 1]);
    }
  }

  /** The failure latch: from the first failure on, nothing is delivered and nothing changes. */
  lemma {:induction false} FailureIsForEver(c: Cipher, accept: Bytes -> bool, ops: seq<Op>, worlds: seq<World>, i: nat, j: nat)
    requires IsRun(c, accept, ops, worlds) && i <= j <= |ops|
    requires Failed(worlds[i].client)
    ensures worlds[j] == worlds[i]
    ensures j < |ops| && ops[j].Next? ==> NextStep(c, worlds[j].client.live).1 == Err(SessionState)
    ensures j < |ops| && ops[j].Push? ==> PushStep(worlds[j].client.live, ops[j].data).1 == Err(SessionState)
    decreases j - i
  {
    if i < j {
      FailureIsForEver(c, accept, ops, worlds, i, j - 1);
    }
  }

  // ---- The sender's own stream ---------------------------------------------

  ghost predicate OneChunkEach(messages: seq<Bytes>) {
    forall i :: 0 <= i < |messages| ==> |messages[i]| <= MAX_CHUNK_PAYLOAD_LEN
  }

  /** The handshake frame, then the sender's stream. */
  ghost function Whole(c: Cipher, v: Conversation, hello: Bytes): Bytes
    requires GrowsByTag(c) && v.Valid() && |hello| <= NOISE_MAX_MESSAGE_LEN
  {
    EncodeFrame(hello) + WireOf(c, v, |v.messages|)
  }

  ghost predicate Healthy(c: Cipher, v: Conversation, hello: Bytes, w: World)
    requires GrowsByTag(c) && v.Valid() && |hello| <= NOISE_MAX_MESSAGE_LEN
  {
    && Tracks(c, v, w)
    && !Failed(w.client)
    && w.opening == if w.client.Shaking? && !w.client.read then [] else EncodeFrame(hello)
  }

  lemma PrefixCancel(a: Bytes, x: Bytes, y: Bytes)
    requires a + x <= a + y
    ensures x <= y
  {
    assert (a + x)[|a|..] == x && (a + y)[|a|..] == y;
    assert (a + y)[..|a + x|] == a + x;
    assert y[..|x|] == (a + y)[|a|..|a + x|];
  }

  /** The head frame of any prefix of a stream that begins with `frame` is `frame`. */
  lemma HeadFrame(frame: Bytes, more: Bytes, part: Bytes)
    requires |frame| <= NOISE_MAX_MESSAGE_LEN && part <= EncodeFrame(frame) + more
    ensures ReadFrameSpec(part).Frame? ==> ReadFrameSpec(part).body == frame
    ensures |part| >= |frame| + 2 ==> ReadFrameSpec(part).Frame?
  {
    var stream := EncodeFrame(frame) + more;
    if |part| >= 2 {
      assert part[0] == stream[0] && part[1] == stream[1];
      if |part| >= |frame| + 2 {
        assert part[2..2 + |frame|] == stream[2..2 + |frame|] == frame;
      }
    }
  }

  /** What is buffered of the sender's own stream begins with message `k`'s one frame. */
  lemma NextDelivers(c: Cipher, v: Conversation, live: Live, k: nat)
    requires GrowsByTag(c) && v.Valid() && OpensWhatWasSealed(c, v.sent) && OneChunkEach(v.messages)
    requires k <= |v.messages| && !live.failed && live.nonce == v.base[k]
    requires live.inbound <= Span(c, v, k, |v.messages|)
    requires CompleteFrameLen(live.inbound).Some?
    ensures k < |v.messages|
    ensures NextStep(c, live).1 == Ok(Some(v.messages[k])) && !NextStep(c, live).0.failed
  {
    var total := CompleteFrameLen(live.inbound).value;
    if k < |v.messages| {
      SpanAppend(c, v, k, k + 1, |v.messages|);
      assert Span(c, v, k, k + 1) == Remaining(c, v, k, 0);
      assert ChunkCount(v.messages[k]) == 1;
      var frame := c.seal(v.base[k], v.sent[v.base[k]]);
      assert v.sent[v.base[k]] == ChunkAt(v.messages[k], 0);
      StretchHead(c, v.sent, v.base[k], v.base[k + 1]);
      assert Remaining(c, v, k, 0) == EncodeFrame(frame) + [];
      HeadFrame(frame, Span(c, v, k + 1, |v.messages|), live.inbound);
      assert live.inbound[..total] == Remaining(c, v, k, 0) + [];
      StartOfMessage(c, v, MAX_CHUNK_PAYLOAD_LEN, k, live.inbound[..total]);
      DeliverOne(c, v, MAX_CHUNK_PAYLOAD_LEN, k, 0, []);
    }
  }

  lemma StepHealthy(c: Cipher, accept: Bytes -> bool, v: Conversation, hello: Bytes, w: World, op: Op)
    requires GrowsByTag(c) && v.Valid() && OpensWhatWasSealed(c, v.sent) && Unforgeable(c, v.sent)
    requires OneChunkEach(v.messages) && |hello| <= NOISE_MAX_MESSAGE_LEN && accept(hello)
    requires Healthy(c, v, hello, w) && Legal(w, op) && w.pushed <= Whole(c, v, hello)
    ensures Healthy(c, v, hello, Step(c, accept, w, op))
  {
    StepTracks(c, accept, v, w, op);
    match op
    case Push(_) =>
    case ReadHandshake =>
      assert WireOf(c, v, 0) == [];
      assert w.pushed == w.client.buffer;
      HeadFrame(hello, WireOf(c, v, |v.messages|), w.client.buffer);
    case Promote =>
    case Next =>
      var k := |w.delivered|;
      PrefixCancel(EncodeFrame(hello), WireOf(c, v, k) + w.client.live.inbound, WireOf(c, v, |v.messages|));
      SpanAppend(c, v, 0, k, |v.messages|);
      PrefixCancel(Span(c, v, 0, k), w.client.live.inbound, Span(c, v, k, |v.messages|));
      if CompleteFrameLen(w.client.live.inbound).Some? {
        NextDelivers(c, v, w.client.live, k);
      }
  }

  lemma {:induction false} PushedGrows(c: Cipher, accept: Bytes -> bool, ops: seq<Op>, worlds: seq<World>, i: nat, j: nat)
    requires IsRun(c, accept, ops, worlds) && i <= j <= |ops|
    ensures worlds[i].pushed <= worlds[j].pushed
    decreases j - i
  {
    if i < j {
      PushedGrows(c, accept, ops, worlds, i, j - 1);
      assert worlds[j] == Step(c, accept, worlds[j - 1], ops[j - 1]);
    }
  }

  lemma StartHealthy(c: Cipher, v: Conversation, hello: Bytes)
    requires GrowsByTag(c) && v.Valid() && |hello| <= NOISE_MAX_MESSAGE_LEN
    ensures Healthy(c, v, hello, START)
  {
    assert WireOf(c, v, 0) == [];
  }

  lemma WithinTheWhole(part: Bytes, more: Bytes, whole: Bytes)
    requires part <= more <= whole
    ensures part <= whole
  {
  }

  lemma {:induction false} EveryRunHealthy(c: Cipher, accept: Bytes -> bool, messages: seq<Bytes>, hello: Bytes,
                                           ops: seq<Op>, worlds: seq<World>, i: nat)
    requires GrowsByTag(c) && OpensWhatWasSealed(c, Converse(messages).sent) && Unforgeable(c, Converse(messages).sent)
    requires OneChunkEach(messages) && |hello| <= NOISE_MAX_MESSAGE_LEN && accept(hello)
    requires IsRun(c, accept, ops, worlds) && i <= |ops|
    requires worlds[|ops|].pushed <= Whole(c, Converse(messages), hello)
    ensures Healthy(c, Converse(messages), hello, worlds[i])
  {
    var v := Converse(messages);
    hide Converse;
    if i == 0 {
      StartHealthy(c, v, hello);
    } else {
      EveryRunHealthy(c, accept, messages, hello, ops, worlds, i - 1);
      PushedGrows(c, accept, ops, worlds, i - 1, |ops|);
      assert Legal(worlds[i - 1], ops[i - 1]) && worlds[i] == Step(c, accept, worlds[i - 1], ops[i - 1]);
      WithinTheWhole(worlds[i - 1].pushed, worlds[|ops|].pushed, Whole(c, v, hello));
      hide IsRun;
      hide Healthy;
      hide Step;
      hide Whole;
      hide OneChunkEach;
      StepHealthy(c, accept, v, hello, worlds[i - 1], ops[i - 1]);
    }
  }

  /** The transport is up and holds no complete frame: `next_message` has just returned `None`. */
  predicate Drained(client: Client) {
    client.Running? && CompleteFrameLen(client.live.inbound).None?
  }

  /** However the wire is split into pushes, on either side of promotion: what is delivered is a run of
      the sent messages from the first, nothing fails, and once everything is pushed and drained it is
      all of them. */
  lemma {:induction false} PushesDeliver(c: Cipher, accept: Bytes -> bool, messages: seq<Bytes>, hello: Bytes, ops: seq<Op>, worlds: seq<World>)
    requires GrowsByTag(c) && OpensWhatWasSealed(c, Converse(messages).sent) && Unforgeable(c, Converse(messages).sent)
    requires OneChunkEach(messages) && |hello| <= NOISE_MAX_MESSAGE_LEN && accept(hello)
    requires IsRun(c, accept, ops, worlds)
    requires worlds[|ops|].pushed <= Whole(c, Converse(messages), hello)
    ensures var last := worlds[|ops|];
            && last.delivered <= messages
            && !Failed(last.client)
            && ((last.pushed == Whole(c, Converse(messages), hello) && Drained(last.client)) ==>
                  last.delivered == messages)
  {
    var v, last := Converse(messages), worlds[|ops|];
    hide Converse;
    EveryRunHealthy(c, accept, messages, hello, ops, worlds, |ops|);
    hide IsRun;
    if last.pushed == Whole(c, v, hello) && last.client.Running? && |last.delivered| < |messages| {
      NothingLeftBehind(c, v, hello, last);
    }
  }

  /** With the whole wire pushed and a message still to come, its frames are all in the buffer. */
  lemma NothingLeftBehind(c: Cipher, v: Conversation, hello: Bytes, w: World)
    requires GrowsByTag(c) && v.Valid() && OneChunkEach(v.messages) && |hello| <= NOISE_MAX_MESSAGE_LEN
    requires Healthy(c, v, hello, w) && w.pushed == Whole(c, v, hello) && w.client.Running? && |w.delivered| < |v.messages|
    ensures !Drained(w.client)
  {
    var k, n := |w.delivered|, |v.messages|;
    var inbound := w.client.live.inbound;
    assert EncodeFrame(hello) + WireOf(c, v, n) == EncodeFrame(hello) + (WireOf(c, v, k) + inbound);
    hide Healthy;
    hide Tracks;
    hide EncodeFrame;
    hide Stretch;
    PrefixCancel(EncodeFrame(hello), WireOf(c, v, n), WireOf(c, v, k) + inbound);
    SpanAppend(c, v, 0, k, n);
    PrefixCancel(Span(c, v, 0, k), Span(c, v, k, n), inbound);
    SpanAppend(c, v, k, k + 1, n);
    RemainingHead(c, v, k, 0, Span(c, v, k + 1, n));
    assert Span(c, v, k, k + 1) == Remaining(c, v, k, 0);
    assert Span(c, v, k, n) <= inbound;
  }

  /** A message of more than one chunk is refused on its first frame, and the session latches. */
  lemma OverlongLatches(c: Cipher, v: Conversation, live: Live, k: nat)
    requires GrowsByTag(c) && v.Valid() && OpensWhatWasSealed(c, v.sent)
    requires k < |v.messages| && !live.failed && live.nonce == v.base[k]
    requires |v.messages[k]| > MAX_CHUNK_PAYLOAD_LEN
    requires CompleteFrameLen(live.inbound).Some? && NextIs(c, v.sent, v.base[k], live.inbound)
    ensures NextStep(c, live).1 == Err(TooLarge(MAX_CHUNK_PAYLOAD_LEN)) && NextStep(c, live).0.failed
  {
    var frame := live.inbound[..CompleteFrameLen(live.inbound).value];
    CompleteFrameStandsAlone(live.inbound);
    StartOfMessage(c, v, MAX_CHUNK_PAYLOAD_LEN, k, frame);
    HonestChunk(c, v, MAX_CHUNK_PAYLOAD_LEN, k, 0, frame);
    assert ReadFrameSpec([]) == Eof;
  }

  /** A caller who drains to `None` before each push of at most 65538 bytes is never refused. */
  lemma DrainedPushFits(s: Live, data: Bytes)
    requires !s.failed && CompleteFrameLen(s.inbound).None? && |data| <= 65538
    ensures PushStep(s, data) == (s.(inbound := s.inbound + data), Ok(()))
  {
    SafePush(65538);
    IncompleteIsSmall(s.inbound);
  }
}
