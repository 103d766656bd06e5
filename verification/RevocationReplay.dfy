/** Exactly when one revocation body can be accepted again, and what the transition system's steps are. */
module RevocationReplay {
  import opened Wrappers
  import opened SaturatingI64
  import opened Identity
  import opened HostState
  import opened Revocation
  import opened RevocationRuns

  function Entry(key: (Bytes, i64)): ConsumedRevocation {
    ConsumedRevocation(key.0, key.1)
  }

  predicate OnRecord(file: StateFile, key: (Bytes, i64)) {
    Entry(key) in file.consumed
  }

  /** The nonce is on record under another time of issue. */
  predicate OnRecordOtherwise(file: StateFile, key: (Bytes, i64)) {
    exists i :: 0 <= i < |file.consumed| && file.consumed[i].nonce == key.0 && file.consumed[i].issuedAtMs != key.1
  }

  /** The step accepts the lock holder's request. */
  predicate Records(h: Host, step: Step) {
    step.RecordNonce? && h.holder.Loaded? && !Seen(h.holder.file.consumed, h.holder.request.body.nonce)
  }

  predicate Accepts(h: Host, step: Step, key: (Bytes, i64)) {
    Records(h, step) && Key(h.holder.request) == key
  }

  /** The step accepts a request whose clock is past the body's window, and drops the body's entry. */
  predicate Prunes(h: Host, step: Step, key: (Bytes, i64)) {
    Records(h, step) && SatSub(h.holder.request.nowMs, key.1) > REVOKE_CLOCK_WINDOW_MS
  }

  // ---- One body's entry over a run -------------------------------------------------

  /** What every state keeps while no other process writes back an old file. */
  predicate Coherent(h: Host) {
    !h.holder.Nobody? ==>
      h.holder.file.consumed == h.disk.consumed && Fresh(h.holder.request.body.issuedAtMs, h.holder.request.nowMs)
  }

  lemma StepKeepsCoherent(crypto: Crypto, h: Host, step: Step)
    requires Coherent(h) && Enabled(h, step) && !step.StaleSave?
    ensures Coherent(After(crypto, h, step))
  {
  }

  lemma {:induction false} AlwaysCoherent(crypto: Crypto, run: Run, i: nat)
    requires run.Valid(crypto) && run.NoStaleSave() && i < |run.hosts|
    ensures Coherent(run.hosts[i])
  {
    if i > 0 {
      AlwaysCoherent(crypto, run, i - 1);
      StepKeepsCoherent(crypto, run.hosts[i - 1], run.steps[i - 1]);
    }
  }

  lemma RecordedHolds(file: StateFile, body: Body, nowMs: i64, key: (Bytes, i64))
    ensures OnRecord(NonceSaved(file, body, nowMs), key) <==>
            (body.nonce == key.0 && body.issuedAtMs == key.1)
            || (OnRecord(file, key) && Retained(nowMs, REVOKE_CLOCK_WINDOW_MS, Entry(key)))
  {
    var kept := Keep(file.consumed, seen => Retained(nowMs, REVOKE_CLOCK_WINDOW_MS, seen));
    assert Entry(key) in kept <==> OnRecord(file, key) && Retained(nowMs, REVOKE_CLOCK_WINDOW_MS, Entry(key));
    assert NonceSaved(file, body, nowMs).consumed == kept + [ConsumedRevocation(body.nonce, body.issuedAtMs)];
  }

  /** A body's entry is on disk after a step exactly if the step accepts it, or it was there and the step
      does not prune it. */
  lemma StepKeepsRecord(crypto: Crypto, h: Host, step: Step, key: (Bytes, i64))
    requires Coherent(h) && Enabled(h, step) && !step.StaleSave?
    ensures OnRecord(After(crypto, h, step).disk, key) <==>
            Accepts(h, step, key) || (OnRecord(h.disk, key) && !Prunes(h, step, key))
  {
    if Records(h, step) {
      RecordedHolds(h.holder.file, h.holder.request.body, h.holder.request.nowMs, key);
      hide NonceSaved;
      if Accepts(h, step, key) {
        FreshIsExact(key.1, h.holder.request.nowMs);
      }
    }
  }

  /** Step `a` is the last one before state `i` to accept the body. */
  ghost predicate LatestAcceptance(run: Run, a: nat, i: nat, key: (Bytes, i64))
    requires |run.hosts| == |run.steps| + 1
  {
    && a < i <= |run.steps| && Accepts(run.hosts[a], run.steps[a], key)
    && forall k :: a < k < i ==> !Accepts(run.hosts[k], run.steps[k], key)
  }

  ghost predicate PrunedBetween(run: Run, a: nat, i: nat, key: (Bytes, i64))
    requires |run.hosts| == |run.steps| + 1 && i <= |run.steps|
  {
    exists r :: a < r < i && Prunes(run.hosts[r], run.steps[r], key)
  }

  /** From its last acceptance on, a body stays on disk exactly until an acceptance past its window. */
  lemma {:induction false} OnRecordExactlyWhen(crypto: Crypto, run: Run, a: nat, i: nat, key: (Bytes, i64))
    requires run.Valid(crypto) && run.NoStaleSave() && LatestAcceptance(run, a, i, key)
    ensures OnRecord(run.hosts[i].disk, key) <==> !PrunedBetween(run, a, i, key)
    decreases i
  {
    var h, step := run.hosts[i - 1], run.steps[i - 1];
    AlwaysCoherent(crypto, run, i - 1);
    StepKeepsRecord(crypto, h, step, key);
    hide OnRecord;
    if a < i - 1 {
      OnRecordExactlyWhen(crypto, run, a, i - 1, key);
      if PrunedBetween(run, a, i - 1, key) {
        var r :| a < r < i - 1 && Prunes(run.hosts[r], run.steps[r], key);
        assert a < r < i;
      }
    }
  }

  lemma SeenExactlyWhen(file: StateFile, key: (Bytes, i64))
    ensures Seen(file.consumed, key.0) <==> OnRecord(file, key) || OnRecordOtherwise(file, key)
  {
    if Seen(file.consumed, key.0) && !OnRecordOtherwise(file, key) {
      var i :| 0 <= i < |file.consumed| && file.consumed[i].nonce == key.0;
      assert file.consumed[i] == Entry(key);
    }
    if OnRecord(file, key) {
      var i :| 0 <= i < |file.consumed| && file.consumed[i] == Entry(key);
      assert file.consumed[i].nonce == key.0;
    }
  }

  // ---- Exactly when it is accepted again -------------------------------------------

  /** The host once a request that takes the lock now has tried to record its nonce. */
  function Tried(crypto: Crypto, h: Host, request: Request): Host
    requires Enabled(h, Begin(request))
  {
    After(crypto, After(crypto, h, Begin(request)), RecordNonce)
  }

  /** A verified request is accepted exactly if its nonce is not on disk. */
  lemma TriedAccepts(crypto: Crypto, h: Host, request: Request)
    requires Enabled(h, Begin(request))
    ensures Tried(crypto, h, request).accepted
         == h.accepted + if Seen(h.disk.consumed, request.body.nonce) then [] else [Key(request)]
  {
  }

  /** Once accepted, a body that is still fresh by the clock of a later request is accepted again exactly if
      some acceptance in between was past its window, and its nonce is not on record for another body. */
  lemma AcceptedAgainExactlyWhen(crypto: Crypto, run: Run, a: nat, request: Request)
    requires run.Valid(crypto) && run.NoStaleSave() && Enabled(Last(run), Begin(request))
    requires LatestAcceptance(run, a, |run.steps|, Key(request))
    ensures Tried(crypto, Last(run), request).accepted == Last(run).accepted + [Key(request)]
            <==> PrunedBetween(run, a, |run.steps|, Key(request)) && !OnRecordOtherwise(Last(run).disk, Key(request))
  {
    TriedAccepts(crypto, Last(run), request);
    SeenExactlyWhen(Last(run).disk, Key(request));
    OnRecordExactlyWhen(crypto, run, a, |run.steps|, Key(request));
    hide Tried;
    hide OnRecord;
    hide OnRecordOtherwise;
    assert Last(run).accepted + [] != Last(run).accepted + [Key(request)] by {
      assert |Last(run).accepted + []| != |Last(run).accepted + [Key(request)]|;
    }
  }

  /** A file written back by another process readmits exactly the bodies whose nonces it lacks. */
  lemma StaleFileReadmitsExactly(crypto: Crypto, h: Host, file: StateFile, request: Request)
    requires Enabled(h, Begin(request))
    ensures var stale := After(crypto, h, StaleSave(file));
      && Enabled(stale, Begin(request))
      && (Tried(crypto, stale, request).accepted == h.accepted + [Key(request)] <==> !Seen(file.consumed, request.body.nonce))
  {
    var stale := After(crypto, h, StaleSave(file));
    TriedAccepts(crypto, stale, request);
    assert |h.accepted + []| != |h.accepted + [Key(request)]|;
  }

  // ---- Single use of one body, whatever the clocks ---------------------------------

  lemma {:induction false} StaysOnRecord(crypto: Crypto, run: Run, a: nat, i: nat, key: (Bytes, i64))
    requires run.Valid(crypto) && run.NoStaleSave() && a < i <= |run.steps|
    requires Accepts(run.hosts[a], run.steps[a], key) && !PrunedBetween(run, a, i, key)
    ensures OnRecord(run.hosts[i].disk, key)
    decreases i
  {
    AlwaysCoherent(crypto, run, i - 1);
    StepKeepsRecord(crypto, run.hosts[i - 1], run.steps[i - 1], key);
    hide OnRecord;
    if a < i - 1 {
      assert forall r :: a < r < i ==> !Prunes(run.hosts[r], run.steps[r], key);
      StaysOnRecord(crypto, run, a, i - 1, key);
    }
  }

  /** Between two acceptances of one body there is always one of a request past its window. */
  lemma PrunedInBetween(crypto: Crypto, run: Run, a: nat, b: nat, key: (Bytes, i64))
    requires run.Valid(crypto) && run.NoStaleSave() && a < b < |run.steps|
    requires Accepts(run.hosts[a], run.steps[a], key) && Accepts(run.hosts[b], run.steps[b], key)
    ensures PrunedBetween(run, a, b, key)
  {
    if !PrunedBetween(run, a, b, key) {
      StaysOnRecord(crypto, run, a, b, key);
      AlwaysCoherent(crypto, run, b);
      SeenExactlyWhen(run.hosts[b].disk, key);
    }
  }

  /** The lock was taken for the request the holder has loaded, and nothing was recorded since. */
  lemma {:induction false} LoadedSince(crypto: Crypto, run: Run, i: nat) returns (b: nat)
    requires run.Valid(crypto) && i < |run.hosts| && run.hosts[i].holder.Loaded?
    ensures b < i && run.steps[b] == Begin(run.hosts[i].holder.request)
    ensures forall k :: b < k < i ==> !run.steps[k].RecordNonce?
  {
    assert i > 0;
    if run.steps[i - 1].Begin? {
      b := i - 1;
    } else {
      b := LoadedSince(crypto, run, i - 1);
    }
  }

  /** The step at which the `n`-th acceptance happened. */
  lemma {:induction false} AcceptedAt(crypto: Crypto, run: Run, i: nat, n: nat) returns (s: nat)
    requires run.Valid(crypto) && i < |run.hosts| && n < |run.hosts[i].accepted|
    ensures s < i && Accepts(run.hosts[s], run.steps[s], run.hosts[i].accepted[n]) && |run.hosts[s].accepted| == n
  {
    assert i > 0;
    if n < |run.hosts[i - 1].accepted| {
      s := AcceptedAt(crypto, run, i - 1, n);
    } else {
      s := i - 1;
    }
  }

  lemma {:induction false} AcceptedGrows(crypto: Crypto, run: Run, i: nat, j: nat)
    requires run.Valid(crypto) && i <= j < |run.hosts|
    ensures |run.hosts[i].accepted| <= |run.hosts[j].accepted|
    decreases j
  {
    if i < j {
      AcceptedGrows(crypto, run, i, j - 1);
    }
  }

  /** No request for the body takes the lock after an acceptance past the body's window. */
  ghost predicate NoLateRequest(run: Run, key: (Bytes, i64))
    requires |run.hosts| == |run.steps| + 1
  {
    forall r, b :: 0 <= r < b < |run.steps| && Prunes(run.hosts[r], run.steps[r], key) && run.steps[b].Begin? ==>
                     Key(run.steps[b].request) != key
  }

  /** Two acceptances of one body show such a late request. */
  lemma TwiceShowsALateRequest(crypto: Crypto, run: Run, key: (Bytes, i64), i: nat, m: nat, n: nat) returns (r: nat, b: nat)
    requires run.Valid(crypto) && run.NoStaleSave() && i < |run.hosts| && m < n < |run.hosts[i].accepted|
    requires run.hosts[i].accepted[m] == key == run.hosts[i].accepted[n]
    ensures r < b < |run.steps| && Prunes(run.hosts[r], run.steps[r], key)
    ensures run.steps[b].Begin? && Key(run.steps[b].request) == key
  {
    var first := AcceptedAt(crypto, run, i, m);
    var second := AcceptedAt(crypto, run, i, n);
    if second <= first {
      AcceptedGrows(crypto, run, second, first);
    }
    PrunedInBetween(crypto, run, first, second, key);
    r :| first < r < second && Prunes(run.hosts[r], run.steps[r], key);
    b := LoadedSince(crypto, run, second);
    assert run.steps[r].RecordNonce?;
  }

  /** Whatever the order of the clocks, a body for which no request comes late is accepted at most once. */
  lemma SingleUseOf(crypto: Crypto, run: Run, key: (Bytes, i64), i: nat, m: nat, n: nat)
    requires run.Valid(crypto) && run.NoStaleSave() && NoLateRequest(run, key) && i < |run.hosts|
    requires m < n < |run.hosts[i].accepted|
    ensures !(run.hosts[i].accepted[m] == key == run.hosts[i].accepted[n])
  {
    if run.hosts[i].accepted[m] == key == run.hosts[i].accepted[n] {
      var r, b := TwiceShowsALateRequest(crypto, run, key, i, m, n);
    }
  }

  /** Clocks in lock order are one way to have no late request. */
  lemma OrderedClocksComeInTime(crypto: Crypto, run: Run, key: (Bytes, i64))
    requires run.Valid(crypto) && run.ClocksInLockOrder()
    ensures NoLateRequest(run, key)
  {
    forall r, b | 0 <= r < b < |run.steps| && Prunes(run.hosts[r], run.steps[r], key) && run.steps[b].Begin?
      ensures Key(run.steps[b].request) != key
    {
      var begun := LoadedSince(crypto, run, r);
      assert run.steps[begun].request.nowMs <= run.steps[b].request.nowMs;
      assert Enabled(run.hosts[b], run.steps[b]);
      FreshIsExact(run.steps[b].request.body.issuedAtMs, run.steps[b].request.nowMs);
    }
  }

  // ---- The steps are the method's ------------------------------------------------------

  /** The steps a locked request goes through, by its result; a failed save can be its first or its second. */
  function StepsOf(request: Request, r: Result<Applied, Refusal>, recorded: bool): seq<Step> {
    match r
    case Ok(_) => [Begin(request), RecordNonce, RemovePin]
    case Err(Rejected(_)) => [Begin(request), RecordNonce]
    case Err(NotApplied(_)) => if recorded then [Begin(request), RecordNonce, FailSave] else [Begin(request), FailSave]
  }

  predicate CanTake(crypto: Crypto, h: Host, steps: seq<Step>)
    decreases |steps|
  {
    steps == [] || (Enabled(h, steps[0]) && CanTake(crypto, After(crypto, h, steps[0]), steps[1..]))
  }

  function Take(crypto: Crypto, h: Host, steps: seq<Step>): Host
    requires CanTake(crypto, h, steps)
    decreases |steps|
  {
    if steps == [] then h else Take(crypto, After(crypto, h, steps[0]), steps[1..])
  }

  lemma TakeStep(crypto: Crypto, h: Host, step: Step, rest: seq<Step>)
    requires Enabled(h, step) && CanTake(crypto, After(crypto, h, step), rest)
    ensures CanTake(crypto, h, [step] + rest)
    ensures Take(crypto, h, [step] + rest) == Take(crypto, After(crypto, h, step), rest)
  {
    assert ([step] + rest)[1..] == rest;
  }

  lemma TakeTwo(crypto: Crypto, h: Host, steps: seq<Step>)
    requires |steps| == 2 && Enabled(h, steps[0]) && Enabled(After(crypto, h, steps[0]), steps[1])
    ensures CanTake(crypto, h, steps)
    ensures Take(crypto, h, steps) == After(crypto, After(crypto, h, steps[0]), steps[1])
  {
    var h1 := After(crypto, h, steps[0]);
    assert CanTake(crypto, After(crypto, h1, steps[1]), []) && Take(crypto, After(crypto, h1, steps[1]), []) == After(crypto, h1, steps[1]);
    hide After;
    hide Enabled;
    hide CanTake;
    hide Take;
    TakeStep(crypto, h1, steps[1], []);
    TakeStep(crypto, h, steps[0], [steps[1]] + []);
    assert steps == [steps[0]] + ([steps[1]] + []);
  }

  lemma TakeThree(crypto: Crypto, h: Host, steps: seq<Step>)
    requires |steps| == 3 && Enabled(h, steps[0]) && Enabled(After(crypto, h, steps[0]), steps[1])
    requires Enabled(After(crypto, After(crypto, h, steps[0]), steps[1]), steps[2])
    ensures CanTake(crypto, h, steps)
    ensures Take(crypto, h, steps) == After(crypto, After(crypto, After(crypto, h, steps[0]), steps[1]), steps[2])
  {
    hide After;
    hide Enabled;
    hide CanTake;
    hide Take;
    TakeTwo(crypto, After(crypto, h, steps[0]), [steps[1], steps[2]]);
    TakeStep(crypto, h, steps[0], [steps[1], steps[2]]);
    assert steps == [steps[0]] + [steps[1], steps[2]];
  }

  /** Whatever the locked method does to the disk, its steps do, ending with the lock free; it reports success
      exactly when they accept the body and remove the pin. */
  lemma MethodIsItsSteps(crypto: Crypto, h: Host, request: Request, after: StateFile, r: Result<Applied, Refusal>)
    returns (recorded: bool)
    requires Enabled(h, Begin(request)) && ParseState(crypto, Some(h.disk)).Ok?
    requires LockedOutcome(crypto, Some(h.disk), Some(after), request.body, request.peer, request.nowMs, r)
    ensures CanTake(crypto, h, StepsOf(request, r, recorded))
    ensures var h' := Take(crypto, h, StepsOf(request, r, recorded));
      && h'.disk == after && h'.holder.Nobody?
      && h'.accepted == h.accepted + (if r.Ok? || (r.error.NotApplied? && recorded) then [Key(request)] else [])
      && h'.revoked == h.revoked + (if r.Ok? then [Key(request)] else [])
  {
    recorded := after != h.disk;
    var begun := After(crypto, h, Begin(request));
    var tried := After(crypto, begun, RecordNonce);
    hide NonceSaved;
    hide PinRemoved;
    hide ParseState;
    match r {
      case Ok(_) => TakeThree(crypto, h, StepsOf(request, r, recorded));
      case Err(Rejected(_)) => TakeTwo(crypto, h, StepsOf(request, r, recorded));
      case Err(NotApplied(_)) =>
        if recorded {
          TakeThree(crypto, h, StepsOf(request, r, recorded));
        } else {
          TakeTwo(crypto, h, StepsOf(request, r, recorded));
        }
    }
  }
}
