/** What the agent does with each envelope once the session is open, and with the samples in between. */
module SessionDispatch {
  import opened Wrappers
  import opened SaturatingI64
  import opened Identity
  import opened HostState
  import opened MetricsRing
  import opened MetricsEngine
  import opened MetricsWire
  import Revocation
  import SessionRegistry

  const PROTOCOL_VERSION: nat := 1
  const MIN_PROTOCOL_VERSION: nat := 1

  datatype SubscribeBody = SubscribeBody(backfillSeconds: nat, stream: bool)

  /** A message type with the outcome of decoding its body; `None` is a body that does not match. */
  datatype Message =
    | Ping(seqNo: Option<nat>)
    | Subscribe(subscribe: Option<SubscribeBody>)
    | Revoke(revoke: Option<Revocation.Body>)
    | Bye
    | Reserved

  datatype Envelope = Envelope(id: nat, version: nat, ts: i64, message: Message)

  datatype Code = VersionMismatch | BadRequest | Unsupported | Refused(code: Revocation.ErrorCode)
  datatype Answer = Pong(seqNo: nat, echoTs: i64) | History(body: HistoryBody) | Error(code: Code) | ByeUnpaired
  datatype Frame = Reply(id: nat, answer: Answer) | Tick(sub: nat, sample: Sample)

  datatype End = PeerSaidBye | Revoked
  type Verdict = Result<Revocation.Applied, Revocation.Refusal>

  // ---- What handling one event means -----------------------------------------

  datatype Live = Live(sub: nat, queue: seq<Sample>)
  datatype Session = Session(stream: Option<Live>, pingsAnswered: nat, end: Option<End>)

  predicate SpeaksOurVersion(e: Envelope) {
    MIN_PROTOCOL_VERSION <= e.version <= PROTOCOL_VERSION
  }

  /** The session after an envelope and the answer to it, given what a revocation came to and what body a
      history request is answered with. */
  function Handle(s: Session, e: Envelope, verdict: Verdict, history: HistoryBody): (Session, seq<Frame>) {
    if !SpeaksOurVersion(e) then (s, [Reply(e.id, Error(VersionMismatch))])
    else
      match e.message
      case Ping(Some(n)) => (s.(pingsAnswered := s.pingsAnswered + 1), [Reply(e.id, Pong(n, e.ts))])
      case Subscribe(Some(body)) =>
        (s.(stream := if body.stream then Some(Live(e.id, [])) else None), [Reply(e.id, History(history))])
      case Revoke(Some(_)) =>
        (match verdict
         case Ok(_) => (s.(end := Some(Revoked)), [Reply(e.id, ByeUnpaired)])
         case Err(refusal) => (s, [Reply(e.id, Error(Refused(Revocation.Code(refusal))))]))
      case Bye => (s.(end := Some(PeerSaidBye)), [])
      case Reserved => (s, [Reply(e.id, Error(Unsupported))])
      case _ => (s, [Reply(e.id, Error(BadRequest))])
  }

  function TicksOf(sub: nat, samples: seq<Sample>): (frames: seq<Frame>)
    ensures |frames| == |samples|
  {
    seq(|samples|, i requires 0 <= i < |samples| => Tick(sub, samples[i]))
  }

  function Push(s: Session): (Session, seq<Frame>) {
    if s.stream.None? then (s, [])
    else (s.(stream := Some(Live(s.stream.value.sub, []))), TicksOf(s.stream.value.sub, s.stream.value.queue))
  }

  function Sample(s: Session, sample: Sample): Session {
    if s.stream.None? then s
    else s.(stream := Some(s.stream.value.(queue := Offered(s.stream.value.queue, sample))))
  }

  /** Installed memory as the newest stored sample has it. */
  function LatestTotalMemory(samples: seq<Sample>): Option<nat> {
    if samples == [] then None else Some(samples[|samples| - 1].memTotalBytes)
  }

  /** The body that answers a request for so many seconds of the ring. */
  ghost predicate IsBackfill(body: HistoryBody, id: nat, ring: seq<Sample>, backfillSeconds: nat, nowMs: i64) {
    IsBodyOf(body, id, HistoryOf(ring, backfillSeconds, nowMs), LatestTotalMemory(ring))
  }

  // ---- The running session ---------------------------------------------------

  datatype ActiveStream = ActiveStream(sub: nat, channel: Channel)

  class Runtime {
    const engine: Engine
    const revocation: Revocation.RevocationHandler
    const peer: PinnedPeer
    const peerDeviceId: Bytes
    var pingsAnswered: nat
    var stream: Option<ActiveStream>
    /** Everything written to the noise session, in order. */
    var sent: seq<Frame>

    constructor (engine: Engine, revocation: Revocation.RevocationHandler, peer: PinnedPeer, peerDeviceId: Bytes)
      requires engine.Valid()
      ensures this.engine == engine && this.revocation == revocation && this.peer == peer && this.peerDeviceId == peerDeviceId
      ensures Valid() && Contents() == Session(None, 0, None) && sent == []
    {
      this.engine, this.revocation, this.peer, this.peerDeviceId := engine, revocation, peer, peerDeviceId;
      pingsAnswered, stream, sent := 0, None, [];
    }

    ghost predicate Valid()
      reads this, engine, engine.ring, if stream.Some? then {stream.value.channel} else {}
    {
      && engine.Valid()
      && (stream.Some? ==> stream.value.channel in engine.subscribers && stream.value.channel.alive)
    }

    function Contents(): Session
      reads this, if stream.Some? then {stream.value.channel} else {}
    {
      Session(if stream.Some? then Some(Live(stream.value.sub, stream.value.channel.queue)) else None, pingsAnswered, None)
    }

    method Send(frame: Frame)
      modifies this`sent
      ensures sent == old(sent) + [frame]
    {
      sent := sent + [frame];
    }

    /** The open stream's queue goes out as ticks under its id, in order, and is left empty. */
    method PushTicks() returns (pushed: bool)
      requires Valid()
      modifies this`sent, if stream.Some? then {stream.value.channel} else {}
      ensures Valid() && stream == old(stream)
      ensures Contents() == Push(old(Contents())).0 && sent == old(sent) + Push(old(Contents())).1
      ensures pushed <==> sent != old(sent)
    {
      if stream.None? {
        return false;
      }
      var sub := stream.value.sub;
      var samples := stream.value.channel.Drain();
      if samples == [] {
        return false;
      }
      for i := 0 to |samples|
        invariant sent == old(sent) + TicksOf(sub, samples)[..i]
        invariant Valid() && Contents() == Push(old(Contents())).0
      {
        Send(Tick(sub, samples[i]));
      }
      assert TicksOf(sub, samples)[..|samples|] == TicksOf(sub, samples);
      return true;
    }

    /** The history asked for is the reply; the session then has the one new stream, or none. */
    method HandleSubscribe(id: nat, body: SubscribeBody, nowMs: i64) returns (ghost history: HistoryBody)
      requires Valid()
      modifies this`sent, this`stream, engine`subscribers, if stream.Some? then {stream.value.channel} else {}
      ensures Valid()
      ensures IsBackfill(history, id, engine.ring.samples, body.backfillSeconds, nowMs)
      ensures sent == old(sent) + [Reply(id, History(history))]
      ensures Contents() == old(Contents()).(stream := if body.stream then Some(Live(id, [])) else None)
    {
      hide HistoryOf;
      hide IsBodyOf;
      var backfill := engine.ring.History(body.backfillSeconds, nowMs);
      var answer := MakeHistory(id, backfill, LatestTotalMemory(engine.ring.samples));
      history := answer;
      Send(Reply(id, History(answer)));
      var replaced := stream;
      if body.stream {
        var channel := engine.Subscribe();
        stream := Some(ActiveStream(id, channel));
      } else {
        stream := None;
      }
      if replaced.Some? {
        replaced.value.channel.alive := false;
      }
    }

    /** The handler shares nothing with the session's own objects. */
    ghost predicate HandlerApart()
      reads this, revocation.registry
    {
      var own: set<object> := {this, engine, engine.ring} + if stream.Some? then {stream.value.channel} else {};
      revocation.disk !in own && revocation.audit !in own && revocation.registry !in own
    }

    /** Verify and apply a revocation; if it takes effect, say so and hang up on the peer's other sessions. */
    method HandleRevoke(id: nat, body: Revocation.Body, nowMs: i64) returns (end: Option<End>, ghost verdict: Verdict)
      requires Valid() && HandlerApart() && revocation.registry.Valid()
      modifies this`sent, revocation.disk, revocation.audit, revocation.registry.Sockets()
      ensures Valid() && revocation.registry.Valid() && Contents() == old(Contents())
      ensures end == if verdict.Ok? then Some(Revoked) else None
      ensures sent == old(sent) + [Reply(id, if verdict.Ok? then ByeUnpaired else Error(Refused(Revocation.Code(verdict.error))))]
      ensures var checked := Revocation.VerifyRevocation(revocation.crypto, body, peer, peerDeviceId,
                                                         revocation.hostDeviceId, nowMs);
              if checked.Err? then
                verdict == Err(Revocation.Rejected(checked.error)) && revocation.disk.content == old(revocation.disk.content)
              else
                Revocation.LockedOutcome(revocation.crypto, old(revocation.disk.content), revocation.disk.content,
                                         body, peer, nowMs, verdict)
      ensures revocation.audit.records == old(revocation.audit.records) + Revocation.Logged(verdict)
      ensures revocation.registry.Table()
           == if verdict.Ok? then
                SessionRegistry.CloseMatching(old(revocation.registry.Table()),
                                              SessionRegistry.IsPeer(FingerprintOf(revocation.crypto, peer)))
              else old(revocation.registry.Table())
    {
      hide Revocation.LockedOutcome;
      hide Revocation.VerifyRevocation;
      hide SessionRegistry.CloseMatching;
      hide SessionRegistry.Registry.Table;
      end := None;
      var applied := revocation.Apply(body, peer, peerDeviceId, nowMs);
      verdict := applied;
      if applied.Err? {
        Send(Reply(id, Error(Refused(Revocation.Code(applied.error)))));
        return;
      }
      Send(Reply(id, ByeUnpaired));
      var closed := revocation.ClosePeerSessions(peer);
      end := Some(Revoked);
    }

    /** Handle one envelope. A `Some` result ends the session. */
    method Dispatch(e: Envelope, nowMs: i64) returns (end: Option<End>, ghost verdict: Verdict, ghost history: HistoryBody)
      requires Valid() && HandlerApart() && revocation.registry.Valid()
      modifies this, engine`subscribers, revocation.disk, revocation.audit, revocation.registry.Sockets(),
               if stream.Some? then {stream.value.channel} else {}
      ensures Valid() && revocation.registry.Valid()
      ensures Contents().(end := end) == Handle(old(Contents()), e, verdict, history).0
      ensures sent == old(sent) + Handle(old(Contents()), e, verdict, history).1
      ensures SpeaksOurVersion(e) && e.message.Subscribe? && e.message.subscribe.Some? ==>
                IsBackfill(history, e.id, engine.ring.samples, e.message.subscribe.value.backfillSeconds, nowMs)
      ensures SpeaksOurVersion(e) && e.message.Revoke? && e.message.revoke.Some? ==>
                var body := e.message.revoke.value;
                var checked := Revocation.VerifyRevocation(revocation.crypto, body, peer, peerDeviceId,
                                                           revocation.hostDeviceId, nowMs);
                if checked.Err? then
                  verdict == Err(Revocation.Rejected(checked.error)) && revocation.disk.content == old(revocation.disk.content)
                else
                  Revocation.LockedOutcome(revocation.crypto, old(revocation.disk.content), revocation.disk.content,
                                           body, peer, nowMs, verdict)
      ensures end == Some(Revoked) ==>
                && e.message.Revoke? && e.message.revoke.Some?
                && revocation.audit.records == old(revocation.audit.records) + Revocation.Logged(verdict)
                && revocation.registry.Table()
                   == SessionRegistry.CloseMatching(old(revocation.registry.Table()),
                                                    SessionRegistry.IsPeer(FingerprintOf(revocation.crypto, peer)))
      ensures end != Some(Revoked) ==>
                revocation.registry.Table() == old(revocation.registry.Table())
                && revocation.audit.records == old(revocation.audit.records)
      ensures !(SpeaksOurVersion(e) && e.message.Revoke? && e.message.revoke.Some?) ==>
                revocation.disk.content == old(revocation.disk.content)
    {
      hide Revocation.LockedOutcome;
      hide Revocation.VerifyRevocation;
      hide SessionRegistry.CloseMatching;
      hide SessionRegistry.Registry.Table;
      hide IsBackfill;
      end, verdict := None, Err(Revocation.NotApplied(Io));
      history := HistoryBody(e.id, 0, RING_INTERVAL_MS, [], [], None, [], []);
      if !SpeaksOurVersion(e) {
        Send(Reply(e.id, Error(VersionMismatch)));
        return;
      }
      match e.message {
        case Ping(None) => Send(Reply(e.id, Error(BadRequest)));
        case Ping(Some(n)) =>
          Send(Reply(e.id, Pong(n, e.ts)));
          pingsAnswered := pingsAnswered + 1;
        case Subscribe(None) => Send(Reply(e.id, Error(BadRequest)));
        case Subscribe(Some(body)) => history := HandleSubscribe(e.id, body, nowMs);
        case Revoke(None) => Send(Reply(e.id, Error(BadRequest)));
        case Revoke(Some(body)) => end, verdict := HandleRevoke(e.id, body, nowMs);
        case Bye => end := Some(PeerSaidBye);
        case Reserved => Send(Reply(e.id, Error(Unsupported)));
      }
    }
  }
}
