/** What the peer sees over every run of a session whose writes succeed. */
module SessionTrace {
  import opened Wrappers
  import opened MetricsRing
  import opened MetricsEngine
  import opened MetricsWire
  import D = SessionDispatch
  import Revocation

  /** The sampler thread delivering a sample, the loop pushing ticks, or the loop handling an envelope. */
  datatype Event =
    | Sampled(sample: Sample)
    | Pushed
    | Received(envelope: D.Envelope, verdict: D.Verdict, history: HistoryBody)

  const START: D.Session := D.Session(None, 0, None)

  function Step(s: D.Session, e: Event): (D.Session, seq<D.Frame>) {
    match e
    case Sampled(sample) => (D.Sample(s, sample), [])
    case Pushed => D.Push(s)
    case Received(envelope, verdict, history) => D.Handle(s, envelope, verdict, history)
  }

  function After(events: seq<Event>): D.Session {
    if events == [] then START
    else Step(After(events[..|events| - 1]), events[|events| - 1]).0
  }

  /** What the last event writes. */
  function Output(events: seq<Event>): seq<D.Frame>
    requires events != []
  {
    Step(After(events[..|events| - 1]), events[|events| - 1]).1
  }

  /** Everything written since `hello.ok`. */
  function Sent(events: seq<Event>): seq<D.Frame> {
    if events == [] then [] else Sent(events[..|events| - 1]) + Output(events)
  }

  // ---- Correlated replies ----------------------------------------------------

  predicate IsAnswered(e: Event) {
    e.Received? && !(e.envelope.message.Bye? && D.SpeaksOurVersion(e.envelope))
  }

  /** What each answer means. */
  predicate Warrants(e: Event, answer: D.Answer)
    requires e.Received?
  {
    var message, ours := e.envelope.message, D.SpeaksOurVersion(e.envelope);
    match answer
    case Pong(n, ts) => ours && message == D.Ping(Some(n)) && ts == e.envelope.ts
    case History(body) => ours && message.Subscribe? && message.subscribe.Some? && body == e.history
    case ByeUnpaired => ours && message.Revoke? && message.revoke.Some? && e.verdict.Ok?
    case Error(VersionMismatch) => !ours
    case Error(Unsupported) => ours && message.Reserved?
    case Error(BadRequest) => ours && message in {D.Ping(None), D.Subscribe(None), D.Revoke(None)}
    case Error(Refused(code)) =>
      ours && message.Revoke? && message.revoke.Some? && e.verdict.Err? && code == Revocation.Code(e.verdict.error)
  }

  /** The frame answers the event, under its id, and says of it what is so. */
  predicate Fits(e: Event, frame: D.Frame) {
    e.Received? && frame.Reply? && frame.id == e.envelope.id && Warrants(e, frame.answer)
  }

  /** It is the one frame that does. */
  ghost predicate IsTheFit(e: Event, frame: D.Frame) {
    forall f :: Fits(e, f) <==> f == frame
  }

  function Replies(frames: seq<D.Frame>): (r: seq<D.Frame>)
    ensures forall f <- r :: f.Reply?
  {
    if frames == [] then []
    else Replies(frames[..|frames| - 1])
         + (if frames[|frames| - 1].Reply? then [frames[|frames| - 1]] else [])
  }

  function Answered(events: seq<Event>): (r: seq<Event>)
    ensures forall e <- r :: IsAnswered(e)
  {
    if events == [] then []
    else Answered(events[..|events| - 1]) + (if IsAnswered(events[|events| - 1]) then [events[|events| - 1]] else [])
  }

  lemma {:induction false} RepliesJoin(a: seq<D.Frame>, b: seq<D.Frame>)
    ensures Replies(a + b) == Replies(a) + Replies(b)
  {
    if b == [] {
      assert a + b == a;
    } else {
      assert (a + b)[..|a + b| - 1] == a + b[..|b| - 1];
      RepliesJoin(a, b[..|b| - 1]);
    }
  }

  lemma {:induction false} TicksAreNoReplies(frames: seq<D.Frame>)
    requires forall f <- frames :: f.Tick?
    ensures Replies(frames) == []
  {
    if frames != [] {
      assert frames[|frames| - 1] in frames;
      TicksAreNoReplies(frames[..|frames| - 1]);
    }
  }

  lemma HandleReplies(s: D.Session, e: Event)
    requires e.Received?
    ensures var frames := Step(s, e).1;
      if !IsAnswered(e) then frames == []
      else |frames| == 1 && IsTheFit(e, frames[0])
  {
  }

  lemma OneFrame(frames: seq<D.Frame>)
    requires |frames| == 1
    ensures Replies(frames) == if frames[0].Reply? then frames else []
    ensures TickSamples(frames) == if frames[0].Tick? then [frames[0].sample] else []
  {
    assert frames[..0] == [];
    assert Replies(frames[..0]) == [] && TickSamples(frames[..0]) == [];
  }

  lemma OutputReplies(s: D.Session, e: Event)
    ensures var replies := Replies(Step(s, e).1);
      if !IsAnswered(e) then replies == []
      else |replies| == 1 && IsTheFit(e, replies[0])
  {
    if e.Received? {
      HandleReplies(s, e);
      hide D.Handle;
      if IsAnswered(e) {
        assert IsTheFit(e, Step(s, e).1[0]) && Fits(e, Step(s, e).1[0]);
        hide IsTheFit;
        OneFrame(Step(s, e).1);
      }
    } else {
      TicksAreNoReplies(Step(s, e).1);
    }
  }

  /** Every envelope but a `bye` gets exactly one reply, in the order received: the one frame that fits it. */
  lemma {:induction false} EveryEnvelopeAnsweredOnce(events: seq<Event>)
    ensures |Replies(Sent(events))| == |Answered(events)|
    ensures forall i :: 0 <= i < |Answered(events)| ==> IsTheFit(Answered(events)[i], Replies(Sent(events))[i])
  {
    if events != [] {
      hide IsTheFit;
      hide Step;
      hide After;
      hide IsAnswered;
      var before, last := events[..|events| - 1], events[|events| - 1];
      EveryEnvelopeAnsweredOnce(before);
      RepliesJoin(Sent(before), Output(events));
      OutputReplies(After(before), last);
      assert Sent(events) == Sent(before) + Output(events);
      assert Answered(events) == Answered(before) + if IsAnswered(last) then [last] else [];
      hide Sent;
      hide Answered;
      hide Replies;
      hide Output;
    }
  }

  function Pongs(frames: seq<D.Frame>): nat {
    if frames == [] then 0
    else Pongs(frames[..|frames| - 1])
         + if frames[|frames| - 1].Reply? && frames[|frames| - 1].answer.Pong? then 1 else 0
  }

  lemma {:induction false} PongsJoin(a: seq<D.Frame>, b: seq<D.Frame>)
    ensures Pongs(a + b) == Pongs(a) + Pongs(b)
  {
    if b == [] {
      assert a + b == a;
    } else {
      assert (a + b)[..|a + b| - 1] == a + b[..|b| - 1];
      PongsJoin(a, b[..|b| - 1]);
    }
  }

  lemma {:induction false} TicksAreNoPongs(frames: seq<D.Frame>)
    requires forall f <- frames :: f.Tick?
    ensures Pongs(frames) == 0
  {
    if frames != [] {
      assert frames[|frames| - 1] in frames;
      TicksAreNoPongs(frames[..|frames| - 1]);
    }
  }

  lemma OutputPongs(s: D.Session, e: Event)
    ensures Step(s, e).0.pingsAnswered == s.pingsAnswered + Pongs(Step(s, e).1)
  {
    if e.Received? {
      var frames := Step(s, e).1;
      if frames != [] {
        assert frames[..0] == [] && Pongs(frames[..0]) == 0;
      }
    } else {
      TicksAreNoPongs(Step(s, e).1);
    }
  }

  /** The report's count of answered pings is the number of pongs sent. */
  lemma {:induction false} PingsAreCounted(events: seq<Event>)
    ensures After(events).pingsAnswered == Pongs(Sent(events))
  {
    if events != [] {
      var before := events[..|events| - 1];
      PingsAreCounted(before);
      PongsJoin(Sent(before), Output(events));
      OutputPongs(After(before), events[|events| - 1]);
    }
  }

  // ---- One stream a session ----------------------------------------------------

  /** A subscribe the agent acts on. */
  predicate IsSubscribe(e: Event) {
    e.Received? && D.SpeaksOurVersion(e.envelope) && e.envelope.message.Subscribe? && e.envelope.message.subscribe.Some?
  }

  /** How many events there are up to the latest well-formed subscribe, itself included. */
  function Opening(events: seq<Event>): (n: nat)
    ensures n <= |events|
    ensures n > 0 ==> IsSubscribe(events[n - 1])
    ensures forall i :: n <= i < |events| ==> !IsSubscribe(events[i])
  {
    if events == [] then 0
    else if IsSubscribe(events[|events| - 1]) then |events|
    else Opening(events[..|events| - 1])
  }

  predicate Streams(e: Event, sub: nat) {
    IsSubscribe(e) && e.envelope.message.subscribe.value.stream && e.envelope.id == sub
  }

  /** The stream that is open is the one the latest well-formed subscribe asked for. */
  lemma {:induction false} OpenStreamIsLatest(events: seq<Event>)
    ensures After(events).stream.Some? <==>
            Opening(events) > 0 && events[Opening(events) - 1].envelope.message.subscribe.value.stream
    ensures After(events).stream.Some? ==> Streams(events[Opening(events) - 1], After(events).stream.value.sub)
  {
    if events != [] {
      OpenStreamIsLatest(events[..|events| - 1]);
    }
  }

  /** Every pushed tick carries the id of the latest well-formed subscribe, which asked to stream. */
  lemma TickNamesItsSubscribe(events: seq<Event>, k: nat)
    requires events != [] && k < |Output(events)| && Output(events)[k].Tick?
    ensures var n := Opening(events); n > 0 && Streams(events[n - 1], Output(events)[k].sub)
  {
    var before := events[..|events| - 1];
    OpenStreamIsLatest(before);
    assert events[|events| - 1].Pushed?;
    assert Opening(events) == Opening(before);
    assert forall f <- D.TicksOf(After(before).stream.value.sub, After(before).stream.value.queue) ::
        f.Tick? && f.sub == After(before).stream.value.sub;
  }

  // ---- What a subscription delivers ----------------------------------------------

  function TickSamples(frames: seq<D.Frame>): seq<Sample> {
    if frames == [] then []
    else TickSamples(frames[..|frames| - 1])
         + (if frames[|frames| - 1].Tick? then [frames[|frames| - 1].sample] else [])
  }

  function Samples(events: seq<Event>): seq<Sample> {
    if events == [] then []
    else Samples(events[..|events| - 1])
         + (if events[|events| - 1].Sampled? then [events[|events| - 1].sample] else [])
  }

  /** The ticks written since the latest well-formed subscribe was answered. */
  function TicksSince(events: seq<Event>): seq<Sample> {
    SentPrefix(events, Opening(events));
    TickSamples(Sent(events)[|Sent(events[..Opening(events)])|..])
  }

  /** The samples delivered since then. */
  function SamplesSince(events: seq<Event>): seq<Sample> {
    Samples(events[Opening(events)..])
  }

  lemma {:induction false} SentPrefix(events: seq<Event>, n: nat)
    requires n <= |events|
    ensures Sent(events[..n]) <= Sent(events)
  {
    if n < |events| {
      SentPrefix(events[..|events| - 1], n);
      assert events[..|events| - 1][..n] == events[..n];
    } else {
      assert events[..n] == events;
    }
  }

  lemma {:induction false} TickSamplesJoin(a: seq<D.Frame>, b: seq<D.Frame>)
    ensures TickSamples(a + b) == TickSamples(a) + TickSamples(b)
  {
    if b == [] {
      assert a + b == a;
    } else {
      assert (a + b)[..|a + b| - 1] == a + b[..|b| - 1];
      TickSamplesJoin(a, b[..|b| - 1]);
    }
  }

  lemma {:induction false} TickSamplesOf(sub: nat, samples: seq<Sample>)
    ensures TickSamples(D.TicksOf(sub, samples)) == samples
  {
    if samples != [] {
      var n := |samples| - 1;
      assert D.TicksOf(sub, samples)[..n] == D.TicksOf(sub, samples[..n]);
      TickSamplesOf(sub, samples[..n]);
    }
  }

  lemma RepliesAreNoTicks(s: D.Session, e: Event)
    requires !e.Pushed?
    ensures TickSamples(Step(s, e).1) == []
  {
    if e.Received? {
      HandleReplies(s, e);
      hide D.Handle;
      if D.Handle(s, e.envelope, e.verdict, e.history).1 != [] {
        OneFrame(D.Handle(s, e.envelope, e.verdict, e.history).1);
      }
    }
  }

  lemma TickSamplesTail(a: seq<D.Frame>, b: seq<D.Frame>, k: nat)
    requires k <= |a|
    ensures TickSamples((a + b)[k..]) == TickSamples(a[k..]) + TickSamples(b)
  {
    assert (a + b)[k..] == a[k..] + b;
    TickSamplesJoin(a[k..], b);
  }

  lemma SamplesTail(events: seq<Event>, n: nat)
    requires n < |events|
    ensures Samples(events[n..]) == Samples(events[..|events| - 1][n..]) + Samples([events[|events| - 1]])
  {
    var tail, last := events[n..], events[|events| - 1];
    assert tail[..|tail| - 1] == events[..|events| - 1][n..];
    assert [last][..0] == [];
    assert Samples([last]) == if last.Sampled? then [last.sample] else [];
  }

  /** How one event after the opening changes what has been ticked and what has been sampled. */
  lemma SinceGrows(events: seq<Event>)
    requires events != [] && !IsSubscribe(events[|events| - 1])
    ensures var before := events[..|events| - 1];
      && Opening(events) == Opening(before)
      && TicksSince(events) == TicksSince(before) + TickSamples(Output(events))
      && SamplesSince(events) == SamplesSince(before) + Samples([events[|events| - 1]])
  {
    var before := events[..|events| - 1];
    var n := Opening(before);
    assert Opening(events) == n && events[..n] == before[..n];
    assert Sent(events) == Sent(before) + Output(events);
    hide Sent;
    hide Output;
    hide Opening;
    hide TickSamples;
    hide Samples;
    SentPrefix(before, n);
    TickSamplesTail(Sent(before), Output(events), |Sent(before[..n])|);
    SamplesTail(events, n);
  }

  lemma SinceStarts(events: seq<Event>)
    requires events != [] && IsSubscribe(events[|events| - 1])
    ensures TicksSince(events) == [] && SamplesSince(events) == []
  {
    assert events[..|events|] == events;
  }

  /** `a` is `b` with some elements left out. */
  predicate IsSubsequence(a: seq<Sample>, b: seq<Sample>) {
    a == []
    || (b != [] && ((a[|a| - 1] == b[|b| - 1] && IsSubsequence(a[..|a| - 1], b[..|b| - 1]))
                    || IsSubsequence(a, b[..|b| - 1])))
  }

  lemma SubsequenceGrows(a: seq<Sample>, b: seq<Sample>, x: Sample)
    requires IsSubsequence(a, b)
    ensures IsSubsequence(a, b + [x]) && IsSubsequence(a + [x], b + [x])
  {
    assert (b + [x])[..|b|] == b && (a + [x])[..|a|] == a;
  }

  function Queued(events: seq<Event>): seq<Sample> {
    if After(events).stream.Some? then After(events).stream.value.queue else []
  }

  function Arrived(e: Event, queue: seq<Sample>): seq<Sample> {
    if e.Sampled? && |queue| < SUBSCRIBER_QUEUE_DEPTH then [e.sample] else []
  }

  /** One event moves the queue to the wire whole, adds to its end, or leaves it. */
  lemma QueueMoves(events: seq<Event>)
    requires events != [] && !IsSubscribe(events[|events| - 1]) && After(events).stream.Some?
    ensures var before := events[..|events| - 1];
      && After(before).stream.Some?
      && TickSamples(Output(events)) + Queued(events) == Queued(before) + Arrived(events[|events| - 1], Queued(before))
      && (events[|events| - 1].Pushed? ==> Queued(events) == [])
      && (!events[|events| - 1].Pushed? ==> TickSamples(Output(events)) == [])
  {
    var before := events[..|events| - 1];
    var e := events[|events| - 1];
    if e.Pushed? {
      TickSamplesOf(After(before).stream.value.sub, Queued(before));
    } else {
      RepliesAreNoTicks(After(before), e);
    }
  }

  lemma TickedOrQueued(events: seq<Event>)
    requires events != [] && !IsSubscribe(events[|events| - 1]) && After(events).stream.Some?
    ensures var before := events[..|events| - 1];
      var e := events[|events| - 1];
      && After(before).stream.Some?
      && TicksSince(events) + Queued(events) == TicksSince(before) + Queued(before) + Arrived(e, Queued(before))
      && SamplesSince(events) == SamplesSince(before) + if e.Sampled? then [e.sample] else []
  {
    var before := events[..|events| - 1];
    var e := events[|events| - 1];
    assert Samples([e]) == if e.Sampled? then [e.sample] else [] by { assert [e][..0] == []; }
    hide After;
    hide Output;
    hide Queued;
    hide Arrived;
    hide TicksSince;
    hide SamplesSince;
    hide TickSamples;
    SinceGrows(events);
    QueueMoves(events);
    Rejoin(TicksSince(before), TickSamples(Output(events)), Queued(events), Queued(before), Arrived(e, Queued(before)));
  }

  lemma Rejoin(ticked: seq<Sample>, a: seq<Sample>, b: seq<Sample>, c: seq<Sample>, d: seq<Sample>)
    requires a + b == c + d
    ensures (ticked + a) + b == ticked + c + d
  {
    assert (ticked + a) + b == ticked + (a + b);
    assert ticked + (c + d) == ticked + c + d;
  }

  lemma OpensEmpty(events: seq<Event>)
    requires events != [] && IsSubscribe(events[|events| - 1])
    ensures TicksSince(events) + Queued(events) == [] && SamplesSince(events) == []
  {
    SinceStarts(events);
  }

  /** A subscription's ticks, then what is queued for it, are an in-order part of the samples since it opened. */
  lemma {:induction false} TicksAreASubsequence(events: seq<Event>)
    requires After(events).stream.Some?
    ensures IsSubsequence(TicksSince(events) + Queued(events), SamplesSince(events))
  {
    assert events != [];
    var before := events[..|events| - 1];
    var e := events[|events| - 1];
    assert IsSubsequence([], []);
    hide IsSubsequence;
    hide After;
    hide Queued;
    hide TicksSince;
    hide SamplesSince;
    if IsSubscribe(e) {
      OpensEmpty(events);
    } else {
      TickedOrQueued(events);
      TicksAreASubsequence(before);
      var ticked := TicksSince(before) + Queued(before);
      if e.Sampled? {
        SubsequenceGrows(ticked, SamplesSince(before), e.sample);
      }
      assert ticked + [] == ticked;
      assert SamplesSince(before) + [] == SamplesSince(before);
    }
  }

  /** How many samples have come since the loop last pushed, or since the stream opened. */
  function Backlog(events: seq<Event>): nat {
    if events == [] || IsSubscribe(events[|events| - 1]) || events[|events| - 1].Pushed? then 0
    else Backlog(events[..|events| - 1]) + if events[|events| - 1].Sampled? then 1 else 0
  }

  predicate KeepsUp(events: seq<Event>)
    decreases |events|
  {
    events == [] || IsSubscribe(events[|events| - 1])
    || (Backlog(events) <= SUBSCRIBER_QUEUE_DEPTH && KeepsUp(events[..|events| - 1]))
  }

  lemma {:induction false} LossesShow(events: seq<Event>)
    requires After(events).stream.Some?
    ensures |TicksSince(events) + Queued(events)| <= |SamplesSince(events)|
    ensures KeepsUp(events) <==> |TicksSince(events) + Queued(events)| == |SamplesSince(events)|
    ensures |Queued(events)| == if Backlog(events) < SUBSCRIBER_QUEUE_DEPTH then Backlog(events) else SUBSCRIBER_QUEUE_DEPTH
  {
    assert events != [];
    var before := events[..|events| - 1];
    var e := events[|events| - 1];
    hide After;
    hide TicksSince;
    hide SamplesSince;
    if IsSubscribe(e) {
      OpensEmpty(events);
    } else {
      TickedOrQueued(events);
      QueueMoves(events);
      hide Queued;
      hide Output;
      LossesShow(before);
    }
  }

  /** Nothing is lost exactly while no more samples come between two pushes than the queue holds. */
  lemma {:induction false} NothingLostWhileKeepingUp(events: seq<Event>)
    requires After(events).stream.Some?
    ensures KeepsUp(events) <==> TicksSince(events) + Queued(events) == SamplesSince(events)
  {
    LossesShow(events);
    TicksAreASubsequence(events);
    FullLength(TicksSince(events) + Queued(events), SamplesSince(events));
  }

  lemma {:induction false} FullLength(a: seq<Sample>, b: seq<Sample>)
    requires IsSubsequence(a, b)
    ensures |a| <= |b|
    ensures |a| == |b| ==> a == b
  {
    if a != [] {
      if IsSubsequence(a, b[..|b| - 1]) {
        FullLength(a, b[..|b| - 1]);
      } else {
        FullLength(a[..|a| - 1], b[..|b| - 1]);
      }
    }
  }
}
