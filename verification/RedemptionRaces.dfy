/** When a live pairing can have a revoked agent: redemptions against revocations, statement by statement. */
module RedemptionRaces {
  import opened Wrappers
  import opened TokenRedemption

  /** A run with every state it goes through. */
  datatype Trace = Trace(states: seq<State>, steps: seq<Step>) {
    ghost predicate Valid() {
      && |states| == |steps| + 1
      && states[0] == START
      && forall i :: 0 <= i < |steps| ==> Enabled(states[i], steps[i]) && states[i + 1] == Next(states[i], steps[i])
    }
  }

  lemma {:induction false} TraceFrom(s: State, steps: seq<Step>) returns (states: seq<State>)
    requires CanRun(s, steps)
    ensures |states| == |steps| + 1 && states[0] == s && states[|steps|] == Run(s, steps)
    ensures forall i :: 0 <= i < |steps| ==> Enabled(states[i], steps[i]) && states[i + 1] == Next(states[i], steps[i])
    decreases |steps|
  {
    if steps == [] {
      states := [s];
    } else {
      hide Next;
      hide Enabled;
      var later := TraceFrom(Next(s, steps[0]), steps[1..]);
      states := [s] + later;
      forall i | 0 <= i < |steps| ensures Enabled(states[i], steps[i]) && states[i + 1] == Next(states[i], steps[i]) {
        if i > 0 {
          assert later[i - 1] == states[i] && steps[1..][i - 1] == steps[i];
        }
      }
    }
  }

  /** Every run is a trace. */
  lemma {:induction false} TraceOf(steps: seq<Step>) returns (run: Trace)
    requires CanRun(START, steps)
    ensures run.Valid() && run.steps == steps && run.states[|steps|] == Run(START, steps)
  {
    var states := TraceFrom(START, steps);
    run := Trace(states, steps);
  }

  /** A trace ends where its steps lead. */
  lemma {:induction false} TraceEnds(s: State, states: seq<State>, steps: seq<Step>)
    requires |states| == |steps| + 1 && states[0] == s
    requires forall i :: 0 <= i < |steps| ==> Enabled(states[i], steps[i]) && states[i + 1] == Next(states[i], steps[i])
    ensures CanRun(s, steps) && Run(s, steps) == states[|steps|]
    decreases |steps|
  {
    hide Next;
    hide Enabled;
    if steps != [] {
      assert Enabled(states[0], steps[0]) && states[1] == Next(states[0], steps[0]);
      forall i | 0 <= i < |steps| - 1
        ensures Enabled(states[1..][i], steps[1..][i]) && states[1..][i + 1] == Next(states[1..][i], steps[1..][i])
      {
        assert Enabled(states[i + 1], steps[i + 1]);
      }
      TraceEnds(states[1], states[1..], steps[1..]);
    }
  }

  // ---- Who is in flight ------------------------------------------------------------

  /** The redemption has found `agent` live and has neither committed nor rolled back since. */
  predicate WorksFor(s: State, x: nat, agent: nat) {
    x in s.txs && (s.txs[x].phase.AgentFound? || s.txs[x].phase.Allowed? || s.txs[x].phase.Inserted?)
    && s.txs[x].phase.agent == agent
  }

  /** Step `a` is the last agent check of the transaction before state `i`. */
  predicate LatestCheck(run: Trace, a: nat, i: nat, x: nat) {
    && a < i <= |run.steps| && run.steps[a] == CheckAgent(x)
    && forall k :: a < k < i ==> run.steps[k] != CheckAgent(x)
  }

  lemma WorkedForBefore(s: State, step: Step, x: nat, agent: nat)
    requires Enabled(s, step) && WorksFor(Next(s, step), x, agent) && step != CheckAgent(x)
    ensures WorksFor(s, x, agent) && s.txs[x].account == Next(s, step).txs[x].account
  {
    hide HasRoom;
  }

  lemma CheckFindsLive(s: State, x: nat, agent: nat)
    requires Enabled(s, CheckAgent(x)) && WorksFor(Next(s, CheckAgent(x)), x, agent)
    ensures AgentLive(s, Next(s, CheckAgent(x)).txs[x].account, agent)
  {
    hide HasRoom;
  }

  lemma {:induction false} CheckedBefore(run: Trace, i: nat, x: nat, agent: nat) returns (a: nat)
    requires run.Valid() && i < |run.states| && WorksFor(run.states[i], x, agent)
    ensures LatestCheck(run, a, i, x) && AgentLive(run.states[a], run.states[i].txs[x].account, agent)
  {
    hide Next;
    hide Enabled;
    assert i > 0;
    if run.steps[i - 1] == CheckAgent(x) {
      a := i - 1;
      CheckFindsLive(run.states[i - 1], x, agent);
    } else {
      WorkedForBefore(run.states[i - 1], run.steps[i - 1], x, agent);
      a := CheckedBefore(run, i - 1, x, agent);
    }
  }

  // ---- Devices and pairings over a run ---------------------------------------------

  predicate IsRevoked(s: State, d: nat) {
    d in s.devices && s.devices[d].revoked
  }

  /** The step commits a revocation of the device. */
  predicate Finishes(s: State, step: Step, d: nat) {
    step.FinishRevocation? && step.rev in s.revocations && s.revocations[step.rev].device == d
  }

  lemma StepRevokes(s: State, step: Step, d: nat)
    requires Enabled(s, step)
    ensures IsRevoked(Next(s, step), d) <==> IsRevoked(s, d) || Finishes(s, step, d)
    ensures d in s.devices ==> d in Next(s, step).devices && Next(s, step).devices[d].account == s.devices[d].account
  {
    hide HasRoom;
  }

  ghost predicate FinishedBefore(run: Trace, i: nat, d: nat)
    requires |run.states| == |run.steps| + 1 && i <= |run.steps|
  {
    exists f :: 0 <= f < i && Finishes(run.states[f], run.steps[f], d)
  }

  lemma {:induction false} RevokedExactlyWhen(run: Trace, i: nat, d: nat)
    requires run.Valid() && i < |run.states|
    ensures IsRevoked(run.states[i], d) <==> FinishedBefore(run, i, d)
  {
    hide Next;
    hide Enabled;
    hide Finishes;
    if i > 0 {
      RevokedExactlyWhen(run, i - 1, d);
      StepRevokes(run.states[i - 1], run.steps[i - 1], d);
      if FinishedBefore(run, i - 1, d) {
        var f :| 0 <= f < i - 1 && Finishes(run.states[f], run.steps[f], d);
        assert Finishes(run.states[f], run.steps[f], d);
      }
    }
  }

  lemma {:induction false} DeviceStays(run: Trace, i: nat, j: nat, d: nat)
    requires run.Valid() && i <= j < |run.states| && d in run.states[i].devices
    ensures d in run.states[j].devices && run.states[j].devices[d].account == run.states[i].devices[d].account
    decreases j
  {
    hide Next;
    hide Enabled;
    if i < j {
      DeviceStays(run, i, j - 1, d);
      StepRevokes(run.states[j - 1], run.steps[j - 1], d);
    }
  }

  /** The step commits a revocation whose sweep found the pairing. */
  predicate Sweeps(s: State, step: Step, p: nat) {
    step.FinishRevocation? && step.rev in s.revocations && s.revocations[step.rev].swept.Some?
    && p in s.revocations[step.rev].swept.value
  }

  lemma PairingStaysAStep(s: State, step: Step, p: nat)
    requires Enabled(s, step) && p in s.pairings
    ensures var s' := Next(s, step);
      && p in s'.pairings && s'.pairings[p].(revoked := false) == s.pairings[p].(revoked := false)
      && (s'.pairings[p].revoked <==> s.pairings[p].revoked || Sweeps(s, step, p) || step == RevokePairing(p))
  {
    hide HasRoom;
  }

  lemma {:induction false} PairingStays(run: Trace, i: nat, j: nat, p: nat)
    requires run.Valid() && i <= j < |run.states| && p in run.states[i].pairings
    ensures p in run.states[j].pairings
    ensures run.states[j].pairings[p].(revoked := false) == run.states[i].pairings[p].(revoked := false)
    ensures run.states[i].pairings[p].revoked ==> run.states[j].pairings[p].revoked
    decreases j
  {
    hide Next;
    hide Enabled;
    hide Sweeps;
    if i < j {
      PairingStays(run, i, j - 1, p);
      PairingStaysAStep(run.states[j - 1], run.steps[j - 1], p);
    }
  }

  /** Step `c` is the commit that brought pairing `p` in. */
  predicate CommitsPairing(run: Trace, c: nat, x: nat, p: nat)
    requires |run.states| == |run.steps| + 1
  {
    c < |run.steps| && run.steps[c] == Commit(x, p) && x in run.states[c].txs && run.states[c].txs[x].phase.Inserted?
  }

  lemma NewPairing(s: State, step: Step, p: nat)
    requires Enabled(s, step) && p !in s.pairings && p in Next(s, step).pairings
    ensures step.Commit? && step.pairing == p && step.tx in s.txs && s.txs[step.tx].phase.Inserted?
    ensures Next(s, step).pairings[p].agent == s.txs[step.tx].phase.agent
    ensures Next(s, step).pairings[p].account == s.txs[step.tx].account
    ensures Next(s, step).pairings[p].client == s.txs[step.tx].phase.client && !Next(s, step).pairings[p].revoked
    ensures WorksFor(s, step.tx, Next(s, step).pairings[p].agent)
  {
    hide HasRoom;
  }

  lemma {:induction false} CommittedOnce(run: Trace, i: nat, p: nat) returns (c: nat, x: nat)
    requires run.Valid() && i < |run.states| && p in run.states[i].pairings
    ensures c < i && CommitsPairing(run, c, x, p) && p in run.states[c + 1].pairings
    ensures WorksFor(run.states[c], x, run.states[i].pairings[p].agent)
    ensures run.states[c].txs[x].account == run.states[i].pairings[p].account
  {
    hide Next;
    hide Enabled;
    assert i > 0;
    if p in run.states[i - 1].pairings {
      PairingStays(run, i - 1, i, p);
      c, x := CommittedOnce(run, i - 1, p);
    } else {
      NewPairing(run.states[i - 1], run.steps[i - 1], p);
      c, x := i - 1, run.steps[i - 1].tx;
      assert run.steps[c] == Commit(x, p);
    }
  }

  // ---- Revocations over a run ------------------------------------------------------

  /** A revocation in flight is of a device of its own account. */
  ghost predicate RevokesOwn(s: State) {
    forall r <- s.revocations ::
      s.revocations[r].device in s.devices && s.devices[s.revocations[r].device].account == s.revocations[r].account
  }

  lemma StepRevokesOwn(s: State, step: Step)
    requires Enabled(s, step) && RevokesOwn(s)
    ensures RevokesOwn(Next(s, step))
  {
    hide HasRoom;
    forall r | r in Next(s, step).revocations && r in s.revocations ensures true {
      StepRevokes(s, step, s.revocations[r].device);
    }
  }

  lemma {:induction false} AlwaysRevokesOwn(run: Trace, i: nat)
    requires run.Valid() && i < |run.states|
    ensures RevokesOwn(run.states[i])
  {
    hide Next;
    hide Enabled;
    if i > 0 {
      AlwaysRevokesOwn(run, i - 1);
      StepRevokesOwn(run.states[i - 1], run.steps[i - 1]);
    }
  }

  /** Step `m` is the sweep of the revocation that is in flight at state `i`. */
  predicate LatestSweep(run: Trace, m: nat, i: nat, r: nat) {
    && m < i <= |run.steps| && run.steps[m] == Sweep(r)
    && forall k :: m < k < i ==> run.steps[k] != Sweep(r)
  }

  predicate HasSwept(s: State, r: nat) {
    r in s.revocations && s.revocations[r].swept.Some?
  }

  lemma SweptAStepBefore(s: State, step: Step, r: nat)
    requires Enabled(s, step) && HasSwept(Next(s, step), r)
    ensures if step == Sweep(r) then
              r in s.revocations && Next(s, step).revocations[r] == s.revocations[r].(swept := Some(Found(s, s.revocations[r])))
            else HasSwept(s, r) && s.revocations[r] == Next(s, step).revocations[r]
  {
    hide HasRoom;
  }

  /** What a revocation revokes is what its sweep found. */
  lemma {:induction false} SweptBefore(run: Trace, i: nat, r: nat) returns (m: nat)
    requires run.Valid() && i < |run.states| && HasSwept(run.states[i], r)
    ensures LatestSweep(run, m, i, r) && r in run.states[m].revocations
    ensures run.states[i].revocations[r]
         == run.states[m].revocations[r].(swept := Some(Found(run.states[m], run.states[m].revocations[r])))
  {
    hide Next;
    hide Enabled;
    hide Found;
    assert i > 0;
    SweptAStepBefore(run.states[i - 1], run.steps[i - 1], r);
    if run.steps[i - 1] == Sweep(r) {
      m := i - 1;
    } else {
      m := SweptBefore(run, i - 1, r);
    }
  }

  // ---- Exactly when ------------------------------------------------------------

  /** A revocation of `d` that committed at `f` had swept before the redemption committed at `c`, and
      committed after the redemption had checked its agent at `a`. */
  predicate Overlaps(run: Trace, a: nat, c: nat, m: nat, f: nat, d: nat)
    requires |run.states| == |run.steps| + 1
  {
    && f < |run.steps| && Finishes(run.states[f], run.steps[f], d)
    && LatestSweep(run, m, f, run.steps[f].rev)
    && m < c && a < f
  }

  /** Some revocation of the pairing's agent overlapped its redemption. */
  ghost predicate RevokedAround(run: Trace, i: nat, p: nat)
    requires run.Valid() && i < |run.states| && p in run.states[i].pairings
  {
    exists a: nat, c: nat, x: nat, m: nat, f: nat ::
      && CommitsPairing(run, c, x, p) && c < i && LatestCheck(run, a, c, x)
      && Overlaps(run, a, c, m, f, run.states[i].pairings[p].agent) && f < i
  }

  /** A live pairing's agent is dead exactly when a revocation of it swept before that redemption's commit and
      committed after its agent check. */
  lemma DeadAgentExactlyWhen(run: Trace, i: nat, p: nat)
    requires run.Valid() && i < |run.states| && p in run.states[i].pairings && !run.states[i].pairings[p].revoked
    ensures !AgentLive(run.states[i], run.states[i].pairings[p].account, run.states[i].pairings[p].agent)
            <==> RevokedAround(run, i, p)
  {
    hide Next;
    hide Enabled;
    hide Finishes;
    var row := run.states[i].pairings[p];
    var c, x := CommittedOnce(run, i, p);
    var a := CheckedBefore(run, c, x, row.agent);
    DeviceStays(run, a, i, row.agent);
    RevokedExactlyWhen(run, i, row.agent);
    if FinishedBefore(run, i, row.agent) {
      var f :| 0 <= f < i && Finishes(run.states[f], run.steps[f], row.agent);
      var m := FinishOverlaps(run, a, c, x, f, i, p);
      assert RevokedAround(run, i, p);
    }
  }

  lemma {:induction false} FinishOverlaps(run: Trace, a: nat, c: nat, x: nat, f: nat, i: nat, p: nat) returns (m: nat)
    requires run.Valid() && f < i < |run.states| && p in run.states[i].pairings && !run.states[i].pairings[p].revoked
    requires Finishes(run.states[f], run.steps[f], run.states[i].pairings[p].agent)
    requires CommitsPairing(run, c, x, p) && c < i && p in run.states[c + 1].pairings && LatestCheck(run, a, c, x)
    requires AgentLive(run.states[a], run.states[i].pairings[p].account, run.states[i].pairings[p].agent)
    ensures Overlaps(run, a, c, m, f, run.states[i].pairings[p].agent)
  {
    hide HasRoom;
    var row, r := run.states[i].pairings[p], run.steps[f].rev;
    assert Enabled(run.states[f], run.steps[f]);
    assert HasSwept(run.states[f], r);
    hide Next;
    hide Enabled;
    m := SweptBefore(run, f, r);
    AfterTheCheck(run, a, f, row.agent);
    if m >= c {
      DeviceStays(run, a, f, row.agent);
      AlwaysRevokesOwn(run, f);
      PairingStays(run, c + 1, i, p);
      assert m > c;
      SweptIsRevoked(run, c, m, f, i, p);
    }
  }

  lemma AfterTheCheck(run: Trace, a: nat, f: nat, agent: nat)
    requires run.Valid() && a < |run.steps| && f < |run.steps| && Finishes(run.states[f], run.steps[f], agent)
    requires !IsRevoked(run.states[a], agent) && run.steps[a].CheckAgent?
    ensures a < f
  {
    hide Next;
    hide Enabled;
    RevokedExactlyWhen(run, a, agent);
  }

  /** A pairing committed before the sweep is revoked with the agent. */
  lemma SweptIsRevoked(run: Trace, c: nat, m: nat, f: nat, i: nat, p: nat)
    requires run.Valid() && c < m < f < i < |run.states| && p in run.states[c + 1].pairings
    requires run.steps[f].FinishRevocation? && HasSwept(run.states[f], run.steps[f].rev)
    requires run.steps[f].rev in run.states[m].revocations
    requires run.states[f].revocations[run.steps[f].rev] == run.states[m].revocations[run.steps[f].rev].(swept :=
               Some(Found(run.states[m], run.states[m].revocations[run.steps[f].rev])))
    requires run.states[f].revocations[run.steps[f].rev].device == run.states[c + 1].pairings[p].agent
    requires run.states[f].revocations[run.steps[f].rev].account == run.states[c + 1].pairings[p].account
    ensures p in run.states[i].pairings && run.states[i].pairings[p].revoked
  {
    hide Next;
    hide Enabled;
    PairingStays(run, c + 1, m, p);
    PairingStays(run, m, f, p);
    PairingStaysAStep(run.states[f], run.steps[f], p);
    PairingStays(run, f + 1, i, p);
  }

  // ---- What a schedule has to avoid ------------------------------------------------

  /** No redemption has found live a device whose revocation has swept. */
  ghost predicate Apart(s: State) {
    forall x: nat, r: nat :: HasSwept(s, r) ==> !WorksFor(s, x, s.revocations[r].device)
  }

  /** What every state keeps while redemptions and revocations of one agent stay apart. */
  ghost predicate Tidy(s: State) {
    && LivePairingsHaveLiveAgents(s)
    && (forall x: nat, agent: nat :: WorksFor(s, x, agent) ==> AgentLive(s, s.txs[x].account, agent))
    && (forall r: nat, p: nat ::
          (HasSwept(s, r) && p in s.pairings && !s.pairings[p].revoked && s.pairings[p].agent == s.revocations[r].device)
          ==> p in s.revocations[r].swept.value)
  }

  lemma TidyWork(s: State, step: Step)
    requires Enabled(s, step) && Tidy(s) && Apart(s)
    ensures forall x: nat, agent: nat :: WorksFor(Next(s, step), x, agent) ==>
              AgentLive(Next(s, step), Next(s, step).txs[x].account, agent)
  {
    hide HasRoom;
    var s' := Next(s, step);
    forall x: nat, agent: nat | WorksFor(s', x, agent) ensures AgentLive(s', s'.txs[x].account, agent) {
      if step == CheckAgent(x) {
        CheckFindsLive(s, x, agent);
      } else {
        WorkedForBefore(s, step, x, agent);
        assert step.FinishRevocation? ==> HasSwept(s, step.rev);
      }
      StepRevokes(s, step, agent);
    }
  }

  lemma TidySweeps(s: State, step: Step, r: nat, p: nat)
    requires Enabled(s, step) && Tidy(s) && RevokesOwn(s) && Apart(s)
    requires HasSwept(Next(s, step), r) && p in Next(s, step).pairings && !Next(s, step).pairings[p].revoked
    requires Next(s, step).pairings[p].agent == Next(s, step).revocations[r].device
    ensures p in Next(s, step).revocations[r].swept.value
  {
    hide HasRoom;
    SweptAStepBefore(s, step, r);
    if p in s.pairings {
      PairingStaysAStep(s, step, p);
      assert AgentLive(s, s.pairings[p].account, s.pairings[p].agent);
    } else {
      NewPairing(s, step, p);
    }
  }

  lemma TidyAgents(s: State, step: Step)
    requires Enabled(s, step) && Tidy(s)
    ensures LivePairingsHaveLiveAgents(Next(s, step))
  {
    hide HasRoom;
    var s' := Next(s, step);
    forall p | p in s'.pairings && !s'.pairings[p].revoked
      ensures AgentLive(s', s'.pairings[p].account, s'.pairings[p].agent)
    {
      StepRevokes(s, step, s'.pairings[p].agent);
      if p in s.pairings {
        PairingStaysAStep(s, step, p);
        assert AgentLive(s, s.pairings[p].account, s.pairings[p].agent);
      } else {
        NewPairing(s, step, p);
        assert WorksFor(s, step.tx, s.txs[step.tx].phase.agent);
      }
    }
  }

  /** While no redemption that has found its agent live meets a revocation of it that has swept, every live
      pairing has a live agent. */
  lemma {:induction false} LiveWhileApart(run: Trace, i: nat)
    requires run.Valid() && i < |run.states|
    requires forall k :: 0 <= k < i ==> Apart(run.states[k])
    ensures Tidy(run.states[i])
  {
    if i > 0 {
      LiveWhileApart(run, i - 1);
      AlwaysRevokesOwn(run, i - 1);
      var s, step := run.states[i - 1], run.steps[i - 1];
      assert Enabled(s, step) && run.states[i] == Next(s, step) && Apart(s);
      TidyAgents(s, step);
      TidyWork(s, step);
      forall r: nat, p: nat | HasSwept(Next(s, step), r) && p in Next(s, step).pairings
                              && !Next(s, step).pairings[p].revoked
                              && Next(s, step).pairings[p].agent == Next(s, step).revocations[r].device
        ensures p in Next(s, step).revocations[r].swept.value
      {
        TidySweeps(s, step, r, p);
      }
      hide Next;
      hide Enabled;
    }
  }

  // ---- Which step breaks it ------------------------------------------------------

  /** What a redemption found live is still a device of its account. */
  ghost predicate OpenAgentsExist(s: State) {
    forall x: nat, agent: nat :: WorksFor(s, x, agent) ==> agent in s.devices && s.devices[agent].account == s.txs[x].account
  }

  lemma AlwaysOpenAgentsExist(run: Trace, i: nat)
    requires run.Valid() && i < |run.states|
    ensures OpenAgentsExist(run.states[i])
  {
    hide Next;
    hide Enabled;
    forall x: nat, agent: nat | WorksFor(run.states[i], x, agent)
      ensures agent in run.states[i].devices && run.states[i].devices[agent].account == run.states[i].txs[x].account
    {
      var a := CheckedBefore(run, i, x, agent);
      DeviceStays(run, a, i, agent);
    }
  }

  /** The step commits a redemption whose agent is revoked by then. */
  predicate CommitsLate(s: State, step: Step) {
    step.Commit? && step.tx in s.txs && s.txs[step.tx].phase.Inserted? && IsRevoked(s, s.txs[step.tx].phase.agent)
  }

  /** The step commits a revocation that missed the pairing: its sweep came before the pairing's commit. */
  predicate Misses(s: State, step: Step, p: nat) {
    p in s.pairings && !s.pairings[p].revoked && Finishes(s, step, s.pairings[p].agent) && !Sweeps(s, step, p)
  }

  lemma BreaksExactlyWhen(s: State, step: Step)
    requires LivePairingsHaveLiveAgents(s) && OpenAgentsExist(s) && Enabled(s, step)
    ensures !LivePairingsHaveLiveAgents(Next(s, step)) <==> CommitsLate(s, step) || exists p :: Misses(s, step, p)
  {
    hide HasRoom;
    var s' := Next(s, step);
    forall p | p in s'.pairings
      ensures !s'.pairings[p].revoked && !AgentLive(s', s'.pairings[p].account, s'.pairings[p].agent)
              <==> Misses(s, step, p) || (p !in s.pairings && CommitsLate(s, step))
    {
      if p in s.pairings {
        PairingStaysAStep(s, step, p);
        StepRevokes(s, step, s.pairings[p].agent);
        assert !s.pairings[p].revoked ==> AgentLive(s, s.pairings[p].account, s.pairings[p].agent);
      } else {
        NewPairing(s, step, p);
        assert WorksFor(s, step.tx, s.txs[step.tx].phase.agent);
        StepRevokes(s, step, s.txs[step.tx].phase.agent);
      }
    }
    if CommitsLate(s, step) {
      assert step.pairing in s'.pairings && step.pairing !in s.pairings;
    }
    if p :| Misses(s, step, p) {
      PairingStaysAStep(s, step, p);
    }
  }

  /** In every run a step breaks the property exactly when it commits a redemption whose agent is revoked by
      then, or a revocation that missed a live pairing of its device. */
  lemma BrokenExactlyWhen(run: Trace, i: nat)
    requires run.Valid() && i < |run.steps| && LivePairingsHaveLiveAgents(run.states[i])
    ensures !LivePairingsHaveLiveAgents(run.states[i + 1])
            <==> CommitsLate(run.states[i], run.steps[i]) || exists p :: Misses(run.states[i], run.steps[i], p)
  {
    AlwaysOpenAgentsExist(run, i);
    BreaksExactlyWhen(run.states[i], run.steps[i]);
  }

  // ---- The other side of a pairing ------------------------------------------------

  /** A pairing's client is a device of its account, alive while the pairing is, and what a revocation of it
      has to revoke its sweep has found. */
  ghost predicate ClientsLive(s: State) {
    && RevokesOwn(s)
    && (forall p <- s.pairings ::
          && s.pairings[p].client in s.devices && s.devices[s.pairings[p].client].account == s.pairings[p].account
          && (!s.pairings[p].revoked ==> !IsRevoked(s, s.pairings[p].client)))
    && (forall r: nat, p: nat ::
          (HasSwept(s, r) && p in s.pairings && !s.pairings[p].revoked && s.pairings[p].client == s.revocations[r].device)
          ==> p in s.revocations[r].swept.value)
  }

  lemma ClientStaysLive(s: State, step: Step, p: nat)
    requires Enabled(s, step) && ClientsLive(s) && p in Next(s, step).pairings
    ensures var s' := Next(s, step);
      && s'.pairings[p].client in s'.devices && s'.devices[s'.pairings[p].client].account == s'.pairings[p].account
      && (!s'.pairings[p].revoked ==> !IsRevoked(s', s'.pairings[p].client))
  {
    hide HasRoom;
    if p in s.pairings {
      PairingStaysAStep(s, step, p);
      StepRevokes(s, step, s.pairings[p].client);
      assert step.FinishRevocation? ==> HasSwept(s, step.rev);
    } else {
      NewPairing(s, step, p);
    }
  }

  lemma ClientIsSwept(s: State, step: Step, r: nat, p: nat)
    requires Enabled(s, step) && ClientsLive(s) && HasSwept(Next(s, step), r)
    requires p in Next(s, step).pairings && !Next(s, step).pairings[p].revoked
    requires Next(s, step).pairings[p].client == Next(s, step).revocations[r].device
    ensures p in Next(s, step).revocations[r].swept.value
  {
    hide HasRoom;
    SweptAStepBefore(s, step, r);
    if p in s.pairings {
      PairingStaysAStep(s, step, p);
    } else {
      NewPairing(s, step, p);
    }
  }

  /** The races are the agent's alone: a client exists only from its redemption's commit on, so in every run
      each live pairing has a live client. */
  lemma {:induction false} ClientsAreAlwaysLive(run: Trace, i: nat)
    requires run.Valid() && i < |run.states|
    ensures ClientsLive(run.states[i])
  {
    AlwaysRevokesOwn(run, i);
    if i > 0 {
      ClientsAreAlwaysLive(run, i - 1);
      var s, step := run.states[i - 1], run.steps[i - 1];
      assert Enabled(s, step) && run.states[i] == Next(s, step);
      forall p | p in Next(s, step).pairings
        ensures Next(s, step).pairings[p].client in Next(s, step).devices
        ensures Next(s, step).devices[Next(s, step).pairings[p].client].account == Next(s, step).pairings[p].account
        ensures !Next(s, step).pairings[p].revoked ==> !IsRevoked(Next(s, step), Next(s, step).pairings[p].client)
      {
        ClientStaysLive(s, step, p);
      }
      forall r: nat, p: nat | HasSwept(Next(s, step), r) && p in Next(s, step).pairings
                              && !Next(s, step).pairings[p].revoked
                              && Next(s, step).pairings[p].client == Next(s, step).revocations[r].device
        ensures p in Next(s, step).revocations[r].swept.value
      {
        ClientIsSwept(s, step, r, p);
      }
      hide Next;
      hide Enabled;
    }
  }

  // ---- Both orders happen --------------------------------------------------------

  function Last(run: Trace): State
    requires run.states != []
  {
    run.states[|run.states| - 1]
  }

  /** Some step of the run commits a redemption whose agent is revoked by then. */
  ghost predicate LateCommit(run: Trace)
    requires run.Valid()
  {
    exists k :: 0 <= k < |run.steps| && CommitsLate(run.states[k], run.steps[k])
  }

  /** Some step of the run commits a revocation that missed the pairing. */
  ghost predicate Missed(run: Trace, p: nat)
    requires run.Valid()
  {
    exists k :: 0 <= k < |run.steps| && Misses(run.states[k], run.steps[k], p)
  }

  lemma IsARun(run: Trace)
    requires run.Valid()
    ensures CanRun(START, run.steps) && Run(START, run.steps) == Last(run)
  {
    TraceEnds(START, run.states, run.steps);
  }

  lemma {:induction false} Then(run: Trace, step: Step, next: State) returns (longer: Trace)
    requires run.Valid() && Enabled(Last(run), step) && Next(Last(run), step) == next
    ensures longer.Valid() && Last(longer) == next
    ensures CommitsLate(Last(run), step) ==> LateCommit(longer)
    ensures Misses(Last(run), step, 5) ==> Missed(longer, 5)
  {
    hide Next;
    hide Enabled;
    hide CommitsLate;
    hide Misses;
    longer := Trace(run.states + [next], run.steps + [step]);
    var k := |run.steps|;
    assert longer.states[k] == Last(run) && longer.steps[k] == step;
  }

  /** One token for agent 1 of account 7, and a redemption of it. */
  function Scene(routing: Bytes, revoked: bool, revocations: map<nat, Revocation>, phase: Phase): State {
    State(map[2 := Token(7, 1, routing, 100, false)], map[1 := Device(7, revoked)], map[],
          if Held(phase).Some? then map[2 := 3] else map[], map[3 := Tx(7, routing, 0, phase)], revocations)
  }

  /** The same once the redemption has committed. */
  function Paired(routing: Bytes, revoked: bool, revocations: map<nat, Revocation>): State {
    State(map[2 := Token(7, 1, routing, 100, true)], map[1 := Device(7, revoked), 4 := Device(7, false)],
          map[5 := Pairing(7, 1, 4, false, 2)], map[], map[], revocations)
  }

  const SWEPT_NOTHING: map<nat, Revocation> := map[9 := Revocation(7, 1, Some({}))]

  lemma Offers(routing: Bytes) returns (run: Trace)
    ensures run.Valid() && Last(run) == Scene(routing, false, map[], Started)
  {
    hide HasRoom;
    run := Trace([START], []);
    var s1 := START.(devices := map[1 := Device(7, false)]);
    var s2 := s1.(tokens := map[2 := Token(7, 1, routing, 100, false)]);
    run := Then(run, Enroll(1, 7), s1);
    run := Then(run, Issue(2, 7, 1, routing, 100), s2);
    run := Then(run, Begin(3, 7, routing, 0), Scene(routing, false, map[], Started));
  }

  lemma SceneClaims(routing: Bytes, revocations: map<nat, Revocation>)
    ensures var s := Scene(routing, false, revocations, Started);
      Enabled(s, Claim(3, 2)) && Next(s, Claim(3, 2)) == Scene(routing, false, revocations, Claimed(2))
  {
  }

  lemma SceneChecks(routing: Bytes, revocations: map<nat, Revocation>)
    ensures var s := Scene(routing, false, revocations, Claimed(2));
      Enabled(s, CheckAgent(3)) && Next(s, CheckAgent(3)) == Scene(routing, false, revocations, AgentFound(2, 1))
    ensures var s := Scene(routing, false, revocations, AgentFound(2, 1));
      Enabled(s, CheckQuota(3, 2)) && Next(s, CheckQuota(3, 2)) == Scene(routing, false, revocations, Allowed(2, 1))
  {
    assert LiveDevices(Scene(routing, false, revocations, AgentFound(2, 1)), 7) == {1};
  }

  lemma ChecksAgent(run: Trace, routing: Bytes, revocations: map<nat, Revocation>) returns (longer: Trace)
    requires run.Valid() && Last(run) == Scene(routing, false, revocations, Started)
    ensures longer.Valid() && Last(longer) == Scene(routing, false, revocations, Allowed(2, 1))
  {
    SceneClaims(routing, revocations);
    SceneChecks(routing, revocations);
    hide *;
    longer := Then(run, Claim(3, 2), Scene(routing, false, revocations, Claimed(2)));
    longer := Then(longer, CheckAgent(3), Scene(routing, false, revocations, AgentFound(2, 1)));
    longer := Then(longer, CheckQuota(3, 2), Scene(routing, false, revocations, Allowed(2, 1)));
  }

  lemma SceneInserts(routing: Bytes, revoked: bool, revocations: map<nat, Revocation>)
    ensures var s := Scene(routing, revoked, revocations, Allowed(2, 1));
      Enabled(s, Insert(3, 4)) && Next(s, Insert(3, 4)) == Scene(routing, revoked, revocations, Inserted(2, 1, 4))
  {
  }

  lemma SceneCommits(routing: Bytes, revoked: bool, revocations: map<nat, Revocation>)
    ensures var s := Scene(routing, revoked, revocations, Inserted(2, 1, 4));
      Enabled(s, Commit(3, 5)) && Next(s, Commit(3, 5)) == Paired(routing, revoked, revocations)
      && (revoked ==> CommitsLate(s, Commit(3, 5)))
  {
    var s := Scene(routing, revoked, revocations, Inserted(2, 1, 4));
    assert Next(s, Commit(3, 5)).txs == map[] && Next(s, Commit(3, 5)).locks == map[];
  }

  lemma {:induction false} Pairs(run: Trace, routing: Bytes, revoked: bool, revocations: map<nat, Revocation>) returns (longer: Trace)
    requires run.Valid() && Last(run) == Scene(routing, revoked, revocations, Allowed(2, 1))
    ensures longer.Valid() && Last(longer) == Paired(routing, revoked, revocations)
    ensures revoked ==> LateCommit(longer)
  {
    SceneInserts(routing, revoked, revocations);
    SceneCommits(routing, revoked, revocations);
    hide *;
    longer := Then(run, Insert(3, 4), Scene(routing, revoked, revocations, Inserted(2, 1, 4)));
    longer := Then(longer, Commit(3, 5), Paired(routing, revoked, revocations));
  }

  lemma SceneMarks(routing: Bytes, phase: Phase)
    ensures var s := Scene(routing, false, map[], phase);
      Enabled(s, Mark(9, 7, 1))
      && Next(s, Mark(9, 7, 1)) == Scene(routing, false, map[9 := Revocation(7, 1, None)], phase)
  {
  }

  lemma SceneSweeps(routing: Bytes, phase: Phase)
    ensures var s := Scene(routing, false, map[9 := Revocation(7, 1, None)], phase);
      Enabled(s, Sweep(9)) && Next(s, Sweep(9)) == Scene(routing, false, SWEPT_NOTHING, phase)
  {
    var s := Scene(routing, false, map[9 := Revocation(7, 1, None)], phase);
    assert Found(s, Revocation(7, 1, None)) == {};
  }

  lemma MarksAndSweeps(run: Trace, routing: Bytes, phase: Phase) returns (longer: Trace)
    requires run.Valid() && Last(run) == Scene(routing, false, map[], phase)
    ensures longer.Valid() && Last(longer) == Scene(routing, false, SWEPT_NOTHING, phase)
  {
    SceneMarks(routing, phase);
    SceneSweeps(routing, phase);
    hide *;
    longer := Then(run, Mark(9, 7, 1), Scene(routing, false, map[9 := Revocation(7, 1, None)], phase));
    longer := Then(longer, Sweep(9), Scene(routing, false, SWEPT_NOTHING, phase));
  }

  /** A revocation that runs whole between a redemption's agent check and its commit, and one that has swept
      before a redemption starts and commits after it, both leave a live pairing of a revoked agent. */
  lemma BothOrdersHappen(routing: Bytes) returns (inside: Trace, around: Trace)
    ensures inside.Valid() && CanRun(START, inside.steps) && Run(START, inside.steps) == Paired(routing, true, map[])
    ensures around.Valid() && CanRun(START, around.steps) && Run(START, around.steps) == Paired(routing, true, map[])
    ensures LateCommit(inside) && Missed(around, 5)
    ensures !LivePairingsHaveLiveAgents(Paired(routing, true, map[]))
  {
    hide HasRoom;
    hide LateCommit;
    hide Missed;
    hide CommitsLate;
    hide Trace.Valid;
    var offered := Offers(routing);
    var checked := ChecksAgent(offered, routing, map[]);
    var swept := MarksAndSweeps(checked, routing, Allowed(2, 1));
    var revoked := Then(swept, FinishRevocation(9), Scene(routing, true, map[], Allowed(2, 1)));
    inside := Pairs(revoked, routing, true, map[]);
    var open := MarksAndSweeps(offered, routing, Started);
    var allowed := ChecksAgent(open, routing, SWEPT_NOTHING);
    var paired := Pairs(allowed, routing, false, SWEPT_NOTHING);
    around := Then(paired, FinishRevocation(9), Paired(routing, true, map[]));
    assert 5 in Paired(routing, true, map[]).pairings;
    hide *;
    IsARun(inside);
    IsARun(around);
  }

  /** Whatever a run of steps leaves, a live pairing in it has a live client, and a live agent unless a
      revocation of it overlapped its redemption. */
  lemma {:induction false} EveryRunPairs(steps: seq<Step>, p: nat) returns (run: Trace)
    requires CanRun(START, steps) && p in Run(START, steps).pairings && !Run(START, steps).pairings[p].revoked
    ensures run.Valid() && run.steps == steps && run.states[|steps|] == Run(START, steps)
    ensures var s, row := Run(START, steps), Run(START, steps).pairings[p];
      && AgentLive(s, row.account, row.client)
      && (AgentLive(s, row.account, row.agent) <==> !RevokedAround(run, |steps|, p))
  {
    run := TraceOf(steps);
    ClientsAreAlwaysLive(run, |steps|);
    DeadAgentExactlyWhen(run, |steps|, p);
  }
}
