/** Redemptions and device revocations interleaved statement by statement under read committed: a statement
    sees the rows committed by then, and row locks are held to commit or rollback. */
module TokenRedemption {
  import opened Wrappers

  datatype Token = Token(account: nat, agent: nat, routing: Bytes, expiresAt: int, used: bool)
  datatype Device = Device(account: nat, revoked: bool)
  /** `token` is not a column: it records which redemption inserted the row. */
  datatype Pairing = Pairing(account: nat, agent: nat, client: nat, revoked: bool, token: nat)

  /** Where a redemption stands after its last statement. */
  datatype Phase =
    | Started
    | Missed
    | Claimed(token: nat)
    | AgentFound(token: nat, agent: nat)
    | Allowed(token: nat, agent: nat)
    | Inserted(token: nat, agent: nat, client: nat)
    | Refused(token: nat)

  datatype Tx = Tx(account: nat, routing: Bytes, now: int, phase: Phase)

  /** A revocation that has marked its device, and the live pairings its second update found, once it ran. */
  datatype Revocation = Revocation(account: nat, device: nat, swept: Option<set<nat>>)

  /** Committed rows, the locks on token rows, and the transactions in flight. */
  datatype State = State(
    tokens: map<nat, Token>, devices: map<nat, Device>, pairings: map<nat, Pairing>,
    locks: map<nat, nat>, txs: map<nat, Tx>, revocations: map<nat, Revocation>)

  const START: State := State(map[], map[], map[], map[], map[], map[])

  datatype Step =
    | Enroll(device: nat, account: nat)
    | Issue(token: nat, account: nat, agent: nat, routing: Bytes, expiresAt: int)
    | Begin(tx: nat, account: nat, routing: Bytes, now: int)
    | Claim(tx: nat, token: nat)
    | Miss(tx: nat)
    | CheckAgent(tx: nat)
    | CheckQuota(tx: nat, limit: nat)
    | Insert(tx: nat, client: nat)
    | Commit(tx: nat, pairing: nat)
    | Rollback(tx: nat)
    | Mark(rev: nat, account: nat, device: nat)
    | Sweep(rev: nat)
    | FinishRevocation(rev: nat)
    | AbandonRevocation(rev: nat)
    | RevokePairing(revoked: nat)

  function Held(phase: Phase): Option<nat> {
    match phase
    case Started => None
    case Missed => None
    case Claimed(t) => Some(t)
    case AgentFound(t, _) => Some(t)
    case Allowed(t, _) => Some(t)
    case Inserted(t, _, _) => Some(t)
    case Refused(t) => Some(t)
  }

  predicate Matches(s: State, tx: Tx, t: nat) {
    && t in s.tokens && s.tokens[t].account == tx.account && s.tokens[t].routing == tx.routing
    && !s.tokens[t].used && s.tokens[t].expiresAt > tx.now
  }

  predicate AgentLive(s: State, account: nat, agent: nat) {
    agent in s.devices && s.devices[agent].account == account && !s.devices[agent].revoked
  }

  /** The account's live devices, as committed by now. */
  function LiveDevices(s: State, account: nat): set<nat> {
    set d | d in s.devices && s.devices[d].account == account && !s.devices[d].revoked
  }

  predicate HasRoom(s: State, account: nat, limit: nat) {
    |LiveDevices(s, account)| < limit
  }

  predicate In(s: State, x: nat, phase: Phase) {
    x in s.txs && s.txs[x].phase == phase
  }

  /** Whether the step can be taken. An update that reaches a locked row waits: it has no step. */
  predicate Enabled(s: State, step: Step) {
    match step
    case Enroll(d, _) => d !in s.devices
    case Issue(t, _, _, routing, _) => t !in s.tokens && forall u <- s.tokens :: s.tokens[u].routing != routing
    case Begin(x, _, _, _) => x !in s.txs
    case Claim(x, t) => In(s, x, Started) && Matches(s, s.txs[x], t) && t !in s.locks
    case Miss(x) => In(s, x, Started) && forall t <- s.tokens :: !Matches(s, s.txs[x], t)
    case CheckAgent(x) => x in s.txs && s.txs[x].phase.Claimed? && s.txs[x].phase.token in s.tokens
    case CheckQuota(x, _) => x in s.txs && s.txs[x].phase.AgentFound?
    case Insert(x, client) => x in s.txs && s.txs[x].phase.Allowed? && client !in s.devices
    case Commit(x, pairing) =>
      x in s.txs && (s.txs[x].phase.Missed? || s.txs[x].phase.Refused? || s.txs[x].phase.Inserted?)
      && pairing !in s.pairings && (s.txs[x].phase.Inserted? ==> s.txs[x].phase.client !in s.devices)
      && (Held(s.txs[x].phase).Some? ==> Held(s.txs[x].phase).value in s.tokens)
    case Rollback(x) => x in s.txs
    case Mark(r, account, d) =>
      && r !in s.revocations && AgentLive(s, account, d)
      && forall q <- s.revocations :: s.revocations[q].device != d
    case Sweep(r) => r in s.revocations && s.revocations[r].swept.None?
    case FinishRevocation(r) =>
      r in s.revocations && s.revocations[r].swept.Some? && s.revocations[r].device in s.devices
    case AbandonRevocation(r) => r in s.revocations
    case RevokePairing(p) => p in s.pairings && !s.pairings[p].revoked
  }

  /** Steps that touch revocations, devices and whether pairings are revoked, and nothing else. */
  predicate IsRevoking(step: Step) {
    step.Mark? || step.Sweep? || step.FinishRevocation? || step.AbandonRevocation? || step.RevokePairing?
  }

  function At(s: State, x: nat, phase: Phase): State
    requires x in s.txs
  {
    s.(txs := s.txs[x := s.txs[x].(phase := phase)])
  }

  /** The transaction ends and its locks go with it. */
  function Ended(s: State, x: nat): State {
    s.(txs := map y | y in s.txs && y != x :: s.txs[y],
       locks := map t | t in s.locks && s.locks[t] != x :: s.locks[t])
  }

  function Spent(s: State, t: nat): State
    requires t in s.tokens
  {
    s.(tokens := s.tokens[t := s.tokens[t].(used := true)])
  }

  function Next(s: State, step: Step): State
    requires Enabled(s, step)
  {
    match step
    case Enroll(d, account) => s.(devices := s.devices[d := Device(account, false)])
    case Issue(t, account, agent, routing, expiresAt) =>
      s.(tokens := s.tokens[t := Token(account, agent, routing, expiresAt, false)])
    case Begin(x, account, routing, now) => s.(txs := s.txs[x := Tx(account, routing, now, Started)])
    case Claim(x, t) => At(s, x, Claimed(t)).(locks := s.locks[t := x])
    case Miss(x) => At(s, x, Missed)
    case CheckAgent(x) =>
      var t := s.txs[x].phase.token;
      var agent := s.tokens[t].agent;
      At(s, x, if AgentLive(s, s.txs[x].account, agent) then AgentFound(t, agent) else Refused(t))
    case CheckQuota(x, limit) =>
      var phase := s.txs[x].phase;
      At(s, x, if HasRoom(s, s.txs[x].account, limit) then Allowed(phase.token, phase.agent) else Refused(phase.token))
    case Insert(x, client) => At(s, x, Inserted(s.txs[x].phase.token, s.txs[x].phase.agent, client))
    case Commit(x, pairing) => Committed(s, x, pairing)
    case Rollback(x) => Ended(s, x)
    case _ => Revoked(s, step)
  }

  /** The steps of revocations. */
  function Revoked(s: State, step: Step): State
    requires IsRevoking(step) && Enabled(s, step)
  {
    match step
    case Mark(r, account, d) => s.(revocations := s.revocations[r := Revocation(account, d, None)])
    case Sweep(r) => s.(revocations := s.revocations[r := s.revocations[r].(swept := Some(Found(s, s.revocations[r])))])
    case FinishRevocation(r) =>
      var Revocation(_, d, swept) := s.revocations[r];
      s.(devices := s.devices[d := s.devices[d].(revoked := true)],
         pairings := map p | p in s.pairings ::
           if p in swept.value then s.pairings[p].(revoked := true) else s.pairings[p],
         revocations := s.revocations - {r})
    case AbandonRevocation(r) => s.(revocations := s.revocations - {r})
    case RevokePairing(p) => s.(pairings := s.pairings[p := s.pairings[p].(revoked := true)])
  }

  /** The live pairings of the device that are committed by now. */
  function Found(s: State, revocation: Revocation): set<nat> {
    set p | p in s.pairings && s.pairings[p].account == revocation.account && !s.pairings[p].revoked
            && (s.pairings[p].agent == revocation.device || s.pairings[p].client == revocation.device)
  }

  /** A refusal after the claim returns normally, so its claim is committed too. */
  function Committed(s: State, x: nat, pairing: nat): State
    requires x in s.txs && (Held(s.txs[x].phase).Some? ==> Held(s.txs[x].phase).value in s.tokens)
  {
    match s.txs[x].phase
    case Inserted(t, agent, client) =>
      var account := s.txs[x].account;
      Ended(Spent(s, t), x).(
        devices := s.devices[client := Device(account, false)],
        pairings := s.pairings[pairing := Pairing(account, agent, client, false, t)])
    case Refused(t) => Ended(Spent(s, t), x)
    case _ => Ended(s, x)
  }

  // ---- Invariant -----------------------------------------------------------

  /** A lock is held by exactly the transaction that claimed the row, and a locked row is not yet spent. */
  ghost predicate LocksAgree(s: State) {
    && (forall x <- s.txs :: Held(s.txs[x].phase).Some? ==>
          Held(s.txs[x].phase).value in s.locks && s.locks[Held(s.txs[x].phase).value] == x)
    && (forall t <- s.locks :: t in s.tokens && !s.tokens[t].used
          && s.locks[t] in s.txs && Held(s.txs[s.locks[t]].phase) == Some(t))
  }

  predicate WorksForItsToken(s: State, tx: Tx) {
    match Held(tx.phase)
    case None => true
    case Some(t) =>
      && t in s.tokens && tx.account == s.tokens[t].account && tx.routing == s.tokens[t].routing
      && (tx.phase.AgentFound? ==> tx.phase.agent == s.tokens[t].agent)
      && (tx.phase.Allowed? ==> tx.phase.agent == s.tokens[t].agent)
      && (tx.phase.Inserted? ==> tx.phase.agent == s.tokens[t].agent)
  }

  /** A committed pairing comes from a spent token, and takes the account and the agent from it. */
  predicate CameFromItsToken(s: State, p: Pairing) {
    p.token in s.tokens && s.tokens[p.token].used
    && p.account == s.tokens[p.token].account && p.agent == s.tokens[p.token].agent
  }

  ghost predicate OnePairingEach(s: State) {
    forall p, q :: p in s.pairings && q in s.pairings && s.pairings[p].token == s.pairings[q].token ==> p == q
  }

  ghost predicate Safe(s: State) {
    && LocksAgree(s)
    && (forall x <- s.txs :: WorksForItsToken(s, s.txs[x]))
    && (forall p <- s.pairings :: CameFromItsToken(s, s.pairings[p]))
    && OnePairingEach(s)
  }

  lemma PhaseKeepsSafe(s: State, x: nat, phase: Phase)
    requires Safe(s) && x in s.txs && Held(phase) == Held(s.txs[x].phase)
    requires WorksForItsToken(s, s.txs[x].(phase := phase))
    ensures Safe(At(s, x, phase))
  {
  }

  lemma ClaimKeepsLocks(s: State, x: nat, t: nat)
    requires LocksAgree(s) && Enabled(s, Claim(x, t))
    ensures LocksAgree(Next(s, Claim(x, t)))
  {
  }

  lemma ClaimKeepsSafe(s: State, x: nat, t: nat)
    requires Safe(s) && Enabled(s, Claim(x, t))
    ensures Safe(Next(s, Claim(x, t)))
  {
    ClaimKeepsLocks(s, x, t);
    hide LocksAgree;
  }

  lemma EndingKeepsSafe(s: State, x: nat)
    requires Safe(s) && x in s.txs
    ensures Safe(Ended(s, x))
  {
  }

  /** Once its holder has let go of it, a claimed row can be spent. */
  lemma SpendingKeepsSafe(s: State, t: nat)
    requires Safe(s) && t in s.tokens && t !in s.locks
    ensures Safe(Spent(s, t))
  {
  }

  lemma InsertingKeepsSafe(s: State, s': State, pairing: nat, row: Pairing)
    requires Safe(s) && pairing !in s.pairings && CameFromItsToken(s, row)
    requires forall p <- s.pairings :: s.pairings[p].token != row.token
    requires s' == s.(devices := s'.devices, pairings := s.pairings[pairing := row])
    ensures Safe(s')
  {
  }

  lemma CommitKeepsSafe(s: State, x: nat, pairing: nat)
    requires Safe(s) && Enabled(s, Commit(x, pairing))
    ensures Safe(Committed(s, x, pairing))
  {
    EndingKeepsSafe(s, x);
    var held := Held(s.txs[x].phase);
    if held.Some? {
      var t := held.value;
      assert s.locks[t] == x && !s.tokens[t].used;
      assert t !in Ended(s, x).locks;
      SpendingKeepsSafe(Ended(s, x), t);
      assert Ended(Spent(s, t), x) == Spent(Ended(s, x), t);
      if s.txs[x].phase.Inserted? {
        var row := Pairing(s.txs[x].account, s.txs[x].phase.agent, s.txs[x].phase.client, false, t);
        assert forall p <- s.pairings :: s.pairings[p].token != t;
        InsertingKeepsSafe(Spent(Ended(s, x), t), Committed(s, x, pairing), pairing, row);
      }
    }
  }

  /** Device rows, and which pairings are revoked, do not matter to the invariant. */
  lemma DevicesKeepSafe(s: State, s': State)
    requires Safe(s) && s'.tokens == s.tokens && s'.txs == s.txs && s'.locks == s.locks
    requires s'.pairings.Keys == s.pairings.Keys
    requires forall p <- s.pairings :: s'.pairings[p].(revoked := false) == s.pairings[p].(revoked := false)
    ensures Safe(s')
  {
    assert LocksAgree(s') && forall x <- s'.txs :: WorksForItsToken(s', s'.txs[x]);
    hide LocksAgree;
    hide WorksForItsToken;
  }

  lemma BeginKeepsSafe(s: State, x: nat, tx: Tx)
    requires Safe(s) && x !in s.txs && tx.phase.Started?
    ensures Safe(s.(txs := s.txs[x := tx]))
  {
  }

  lemma IssueKeepsSafe(s: State, t: nat, row: Token)
    requires Safe(s) && t !in s.tokens
    ensures Safe(s.(tokens := s.tokens[t := row]))
  {
  }

  lemma RowsKeepSafe(s: State, step: Step)
    requires Safe(s) && Enabled(s, step)
    requires step.Enroll? || step.Issue? || step.Begin? || IsRevoking(step)
    ensures Safe(Next(s, step))
  {
    hide HasRoom;
    hide Safe;
    if step.Issue? {
      IssueKeepsSafe(s, step.token, Token(step.account, step.agent, step.routing, step.expiresAt, false));
    } else if step.Begin? {
      BeginKeepsSafe(s, step.tx, Tx(step.account, step.routing, step.now, Started));
    } else {
      DevicesKeepSafe(s, Next(s, step));
    }
  }

  lemma StepKeepsSafe(s: State, step: Step)
    requires Safe(s) && Enabled(s, step)
    ensures Safe(Next(s, step))
  {
    hide HasRoom;
    assert forall x <- s.txs :: WorksForItsToken(s, s.txs[x]);
    hide Safe;
    match step
    case Claim(x, t) => ClaimKeepsSafe(s, x, t);
    case Miss(x) => PhaseKeepsSafe(s, x, Missed);
    case CheckAgent(x) => PhaseKeepsSafe(s, x, Next(s, step).txs[x].phase);
    case CheckQuota(x, _) => PhaseKeepsSafe(s, x, Next(s, step).txs[x].phase);
    case Insert(x, _) => PhaseKeepsSafe(s, x, Next(s, step).txs[x].phase);
    case Commit(x, pairing) => CommitKeepsSafe(s, x, pairing);
    case Rollback(x) => EndingKeepsSafe(s, x);
    case _ => RowsKeepSafe(s, step);
  }

  // ---- Runs ----------------------------------------------------------------

  predicate CanRun(s: State, steps: seq<Step>)
    decreases |steps|
  {
    steps == [] || (Enabled(s, steps[0]) && CanRun(Next(s, steps[0]), steps[1..]))
  }

  function Run(s: State, steps: seq<Step>): State
    requires CanRun(s, steps)
    decreases |steps|
  {
    if steps == [] then s else Run(Next(s, steps[0]), steps[1..])
  }

  lemma {:induction false} RunKeepsSafe(s: State, steps: seq<Step>)
    requires Safe(s) && CanRun(s, steps)
    ensures Safe(Run(s, steps))
    decreases |steps|
  {
    if steps != [] {
      StepKeepsSafe(s, steps[0]);
      RunKeepsSafe(Next(s, steps[0]), steps[1..]);
    }
  }

  /** In every interleaving a token yields at most one committed pairing, of its own account and agent. */
  lemma {:induction false} SingleRedemption(steps: seq<Step>, p: nat, q: nat)
    requires CanRun(START, steps)
    requires p in Run(START, steps).pairings && q in Run(START, steps).pairings
    ensures var s := Run(START, steps);
      && CameFromItsToken(s, s.pairings[p])
      && (s.pairings[p].token == s.pairings[q].token ==> p == q)
  {
    RunKeepsSafe(START, steps);
  }

  /** What commits: rows stay, and a spent token stays spent. */
  predicate Later(s: State, s': State) {
    && (forall t <- s.tokens :: t in s'.tokens
          && (s'.tokens[t] == s.tokens[t] || s'.tokens[t] == s.tokens[t].(used := true)))
    && (forall p <- s.pairings :: p in s'.pairings && s'.pairings[p].token == s.pairings[p].token)
    && (forall p <- s'.pairings :: p in s.pairings
          || (s'.pairings[p].token in s.tokens ==> !s.tokens[s'.pairings[p].token].used))
  }

  lemma CommitIsLater(s: State, x: nat, pairing: nat)
    requires LocksAgree(s) && Enabled(s, Commit(x, pairing))
    ensures Later(s, Committed(s, x, pairing))
  {
    var held := Held(s.txs[x].phase);
    assert held.Some? ==> s.locks[held.value] == x && !s.tokens[held.value].used;
    hide LocksAgree;
  }

  lemma RowsAreLater(s: State, step: Step)
    requires Enabled(s, step) && (step.Issue? || step.FinishRevocation? || step.RevokePairing?)
    ensures Later(s, Next(s, step))
  {
  }

  lemma StepIsLater(s: State, step: Step)
    requires Safe(s) && Enabled(s, step)
    ensures Later(s, Next(s, step))
  {
    assert LocksAgree(s);
    hide Safe;
    hide LocksAgree;
    if step.Commit? {
      CommitIsLater(s, step.tx, step.pairing);
    } else if step.Issue? || step.FinishRevocation? || step.RevokePairing? {
      RowsAreLater(s, step);
    } else {
      assert Next(s, step).tokens == s.tokens && Next(s, step).pairings == s.pairings;
      hide Next;
      hide Enabled;
    }
  }

  lemma LaterIsTransitive(s: State, s': State, s'': State)
    requires Later(s, s') && Later(s', s'')
    ensures Later(s, s'')
  {
  }

  /** `used` never reverts, and a token spent without a pairing, a refusal that committed, never yields one. */
  lemma {:induction false} SpentForEver(s: State, steps: seq<Step>)
    requires Safe(s) && CanRun(s, steps)
    ensures Later(s, Run(s, steps))
    decreases |steps|
  {
    if steps != [] {
      StepKeepsSafe(s, steps[0]);
      StepIsLater(s, steps[0]);
      SpentForEver(Next(s, steps[0]), steps[1..]);
      LaterIsTransitive(s, Next(s, steps[0]), Run(s, steps));
    }
  }

  lemma HolderSpends(s: State, x: nat, t: nat, pairing: nat)
    requires Safe(s) && Enabled(s, Commit(x, pairing)) && Held(s.txs[x].phase) == Some(t)
    ensures t in s.locks && s.locks[t] == x && t in s.tokens && !s.tokens[t].used
    ensures s.tokens[t].account == s.txs[x].account && s.tokens[t].routing == s.txs[x].routing
    ensures Next(s, Commit(x, pairing)).tokens == s.tokens[t := s.tokens[t].(used := true)]
    ensures forall y :: y in s.txs && y != x ==>
              y in Next(s, Commit(x, pairing)).txs && Next(s, Commit(x, pairing)).txs[y] == s.txs[y]
  {
    hide HasRoom;
  }

  lemma RollbackFrees(s: State, x: nat, y: nat, t: nat)
    requires Safe(s) && x in s.txs && Held(s.txs[x].phase) == Some(t) && y in s.txs && y != x
    ensures var s' := Next(s, Rollback(x));
      t !in s'.locks && s'.tokens == s.tokens && y in s'.txs && s'.txs[y] == s.txs[y]
  {
  }

  /** Of two redemptions, while one holds the row the other cannot claim it, and after a commit it can only miss. */
  lemma LoserMisses(s: State, x: nat, y: nat, t: nat, pairing: nat)
    requires Safe(s) && Enabled(s, Commit(x, pairing)) && Held(s.txs[x].phase) == Some(t)
    requires x != y && In(s, y, Started) && s.txs[y].account == s.txs[x].account && s.txs[y].routing == s.txs[x].routing
    requires forall u, v :: u in s.tokens && v in s.tokens && s.tokens[u].routing == s.tokens[v].routing ==> u == v
    ensures forall u :: !Enabled(s, Claim(y, u))
    ensures Enabled(Next(s, Commit(x, pairing)), Miss(y))
    ensures Enabled(Next(s, Rollback(x)), Claim(y, t)) <==> s.tokens[t].expiresAt > s.txs[y].now
  {
    HolderSpends(s, x, t, pairing);
    RollbackFrees(s, x, y, t);
    hide Safe;
    hide Next;
    var s' := Next(s, Commit(x, pairing));
    forall u | u in s'.tokens ensures !Matches(s', s'.txs[y], u) {
      assert u in s.tokens;
    }
  }

  // ---- What only whole transactions keep --------------------------------------

  predicate LivePairingsHaveLiveAgents(s: State) {
    forall p <- s.pairings :: !s.pairings[p].revoked ==> AgentLive(s, s.pairings[p].account, s.pairings[p].agent)
  }

  lemma RunsOne(s: State, step: Step)
    requires Enabled(s, step)
    ensures CanRun(s, [step]) && Run(s, [step]) == Next(s, step)
  {
    hide HasRoom;
    assert [step][1..] == [];
  }

  lemma RunsStep(s: State, step: Step, rest: seq<Step>)
    requires Enabled(s, step) && CanRun(Next(s, step), rest)
    ensures CanRun(s, [step] + rest) && Run(s, [step] + rest) == Run(Next(s, step), rest)
  {
    hide HasRoom;
    assert ([step] + rest)[1..] == rest;
  }

  lemma ThreeSteps(s: State, steps: seq<Step>)
    requires |steps| == 3 && Enabled(s, steps[0]) && Enabled(Next(s, steps[0]), steps[1])
    requires Enabled(Next(Next(s, steps[0]), steps[1]), steps[2])
    ensures CanRun(s, steps) && Run(s, steps) == Next(Next(Next(s, steps[0]), steps[1]), steps[2])
  {
    hide Next;
    hide Enabled;
    hide CanRun;
    hide Run;
    var s1 := Next(s, steps[0]);
    RunsOne(Next(s1, steps[1]), steps[2]);
    RunsStep(s1, steps[1], [steps[2]]);
    RunsStep(s, steps[0], [steps[1]] + [steps[2]]);
    assert steps == [steps[0]] + ([steps[1]] + [steps[2]]);
  }
}
