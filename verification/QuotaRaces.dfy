/** How many live devices an account can have when redemptions overlap, statement by statement: nothing makes one
    quota check wait for another redemption's insert. */
module QuotaRaces {
  import opened Wrappers
  import opened TokenRedemption
  import R = RelayRuns

  /** An account, the devices its quota allows, and how many of its redemptions a schedule lets be past the quota
      check and not yet ended at once. */
  datatype Limits = Limits(account: nat, devices: nat, atOnce: nat)

  /** The account's redemptions past the quota check. */
  function Admitted(s: State, account: nat): set<nat> {
    set x | x in s.txs && s.txs[x].account == account && (s.txs[x].phase.Allowed? || s.txs[x].phase.Inserted?)
  }

  /** An account is created with its agent, its only device then; its quota stays what it was created with. */
  predicate Keeps(s: State, step: Step, limits: Limits) {
    match step
    case Enroll(_, account) =>
      account == limits.account ==>
        (forall d <- s.devices :: s.devices[d].account != account) && (forall x <- s.txs :: s.txs[x].account != account)
    case CheckQuota(x, limit) => x in s.txs && (s.txs[x].account == limits.account ==> limit == limits.devices)
    case _ => true
  }

  predicate Allowed(s: State, step: Step, limits: Limits) {
    Enabled(s, step) && Keeps(s, step, limits) && |Admitted(Next(s, step), limits.account)| <= limits.atOnce
  }

  /** Where the steps lead from the empty tables, if each is allowed. */
  function RunWithin(steps: seq<Step>, limits: Limits): Option<State> {
    if steps == [] then Some(START)
    else
      match RunWithin(steps[..|steps| - 1], limits)
      case None => None
      case Some(s) => if Allowed(s, steps[|steps| - 1], limits) then Some(Next(s, steps[|steps| - 1])) else None
  }

  // ---- The bound -----------------------------------------------------------------

  function Most(limits: Limits): int {
    limits.devices + limits.atOnce - 1
  }

  predicate IsWithin(s: State, limits: Limits) {
    |LiveDevices(s, limits.account)| + |Admitted(s, limits.account)| <= Most(limits)
  }

  lemma EnrollKeeps(s: State, step: Step, limits: Limits)
    requires Allowed(s, step, limits) && step.Enroll? && IsWithin(s, limits) && limits.devices >= 1 && limits.atOnce >= 1
    ensures IsWithin(Next(s, step), limits)
  {
    var s', a := Next(s, step), limits.account;
    assert Admitted(s', a) == Admitted(s, a);
    if step.account == a {
      assert LiveDevices(s', a) == {step.device} && Admitted(s, a) == {};
    } else {
      assert LiveDevices(s', a) == LiveDevices(s, a);
    }
  }

  lemma CheckKeeps(s: State, step: Step, limits: Limits)
    requires Allowed(s, step, limits) && step.CheckQuota? && IsWithin(s, limits)
    ensures IsWithin(Next(s, step), limits)
  {
    var s', a := Next(s, step), limits.account;
    assert LiveDevices(s', a) == LiveDevices(s, a);
    if s.txs[step.tx].account != a || !HasRoom(s, a, limits.devices) {
      assert Admitted(s', a) == Admitted(s, a);
    }
  }

  lemma CommitAdmits(s: State, x: nat, pairing: nat, account: nat)
    requires Enabled(s, Commit(x, pairing))
    ensures Admitted(Next(s, Commit(x, pairing)), account) == Admitted(s, account) - {x}
  {
  }

  lemma CommitAdds(s: State, x: nat, pairing: nat, account: nat)
    requires Enabled(s, Commit(x, pairing))
    ensures LiveDevices(Next(s, Commit(x, pairing)), account) == LiveDevices(s, account)
         + if x in Admitted(s, account) then {s.txs[x].phase.client} else {}
  {
  }

  lemma CommitKeeps(s: State, step: Step, limits: Limits)
    requires Enabled(s, step) && step.Commit? && IsWithin(s, limits)
    ensures IsWithin(Next(s, step), limits)
  {
    CommitAdmits(s, step.tx, step.pairing, limits.account);
    CommitAdds(s, step.tx, step.pairing, limits.account);
    hide Next;
    hide Enabled;
    hide Admitted;
    hide LiveDevices;
  }

  lemma OthersKeep(s: State, step: Step, limits: Limits)
    requires Enabled(s, step) && !step.Enroll? && !step.CheckQuota? && !step.Commit? && IsWithin(s, limits)
    ensures IsWithin(Next(s, step), limits)
  {
    var s', a := Next(s, step), limits.account;
    assert Admitted(s', a) <= Admitted(s, a) && LiveDevices(s', a) <= LiveDevices(s, a);
    R.SubsetSize(Admitted(s', a), Admitted(s, a));
    R.SubsetSize(LiveDevices(s', a), LiveDevices(s, a));
  }

  lemma {:induction false} RunKeepsWithin(steps: seq<Step>, limits: Limits)
    requires limits.devices >= 1 && limits.atOnce >= 1 && RunWithin(steps, limits).Some?
    ensures IsWithin(RunWithin(steps, limits).value, limits)
  {
    if steps == [] {
      assert LiveDevices(START, limits.account) == {} && Admitted(START, limits.account) == {};
    } else {
      var step := steps[|steps| - 1];
      var s := RunWithin(steps[..|steps| - 1], limits).value;
      RunKeepsWithin(steps[..|steps| - 1], limits);
      hide IsWithin;
      hide Next;
      hide Keeps;
      if step.Enroll? {
        EnrollKeeps(s, step, limits);
      } else if step.CheckQuota? {
        CheckKeeps(s, step, limits);
      } else if step.Commit? {
        CommitKeeps(s, step, limits);
      } else {
        OthersKeep(s, step, limits);
      }
    }
  }

  // ---- The bound is reached ------------------------------------------------------

  function Routing(t: nat): (r: Bytes)
    ensures |r| == t
  {
    seq(t, _ => 0)
  }

  /** The agent and one client for each of the `lo` redemptions that have committed, and the redemptions from `lo`
      up to `hi` in flight: those below `c` have inserted, the others have found their agent. */
  ghost predicate IsScene(s: State, account: nat, lo: nat, c: nat, hi: nat) {
    && |s.devices| == lo + 1 && (forall d: nat :: d in s.devices <==> d <= lo)
    && (forall d <- s.devices :: s.devices[d] == Device(account, false))
    && (forall t: nat :: t in s.tokens <==> t < hi)
    && (forall t <- s.tokens :: s.tokens[t] == Token(account, 0, Routing(t), 1, t < lo))
    && (forall p <- s.pairings :: p < lo)
    && (forall t: nat :: t in s.locks <==> lo <= t < hi) && (forall t <- s.locks :: s.locks[t] == t)
    && (forall x: nat :: x in s.txs <==> lo <= x < hi)
    && forall x <- s.txs ::
         s.txs[x] == Tx(account, Routing(x), 0, if x < c then Inserted(x, 0, x + 1) else AgentFound(x, 0))
  }

  lemma SceneCounts(s: State, account: nat, lo: nat, c: nat, hi: nat)
    requires IsScene(s, account, lo, c, hi) && lo <= c <= hi
    ensures |LiveDevices(s, account)| == lo + 1 && |Admitted(s, account)| <= hi - lo
  {
    assert LiveDevices(s, account) == s.devices.Keys;
    R.SubsetSize(Admitted(s, account), R.Between(lo, hi));
  }

  /** The steps are allowed, and lead to such a scene. */
  ghost predicate Leads(steps: seq<Step>, limits: Limits, lo: nat, c: nat, hi: nat) {
    RunWithin(steps, limits).Some? && IsScene(RunWithin(steps, limits).value, limits.account, lo, c, hi)
  }

  lemma Then(steps: seq<Step>, limits: Limits, s: State, step: Step, next: State)
    requires RunWithin(steps, limits) == Some(s) && Allowed(s, step, limits) && Next(s, step) == next
    ensures RunWithin(steps + [step], limits) == Some(next)
  {
    assert (steps + [step])[..|steps|] == steps;
  }

  function Issued(s: State, account: nat, hi: nat): State {
    s.(tokens := s.tokens[hi := Token(account, 0, Routing(hi), 1, false)])
  }

  function Opened(s: State, account: nat, hi: nat, phase: Phase): State {
    s.(tokens := s.tokens[hi := Token(account, 0, Routing(hi), 1, false)],
       txs := s.txs[hi := Tx(account, Routing(hi), 0, phase)],
       locks := if Held(phase).Some? then s.locks[hi := hi] else s.locks)
  }

  lemma OneIssues(s: State, account: nat, lo: nat, hi: nat)
    requires IsScene(s, account, lo, lo, hi) && lo <= hi
    ensures Enabled(s, Issue(hi, account, 0, Routing(hi), 1))
    ensures Next(s, Issue(hi, account, 0, Routing(hi), 1)) == Issued(s, account, hi)
    ensures var s' := Issued(s, account, hi);
      Enabled(s', Begin(hi, account, Routing(hi), 0))
      && Next(s', Begin(hi, account, Routing(hi), 0)) == Opened(s, account, hi, Started)
  {
    forall u | u in s.tokens ensures s.tokens[u].routing != Routing(hi) {
      assert |Routing(u)| != |Routing(hi)|;
    }
  }

  lemma OneClaims(s: State, account: nat, lo: nat, hi: nat)
    requires IsScene(s, account, lo, lo, hi) && lo <= hi
    ensures var s' := Opened(s, account, hi, Started);
      Enabled(s', Claim(hi, hi)) && Next(s', Claim(hi, hi)) == Opened(s, account, hi, Claimed(hi))
  {
    assert hi !in s.locks && hi !in s.txs;
    hide IsScene;
  }

  lemma OneFindsItsAgent(s: State, account: nat, lo: nat, hi: nat)
    requires IsScene(s, account, lo, lo, hi) && lo <= hi
    ensures var s' := Opened(s, account, hi, Claimed(hi));
      Enabled(s', CheckAgent(hi)) && Next(s', CheckAgent(hi)) == Opened(s, account, hi, AgentFound(hi, 0))
  {
    assert AgentLive(s, account, 0);
    hide IsScene;
  }

  lemma OneOpens(s: State, account: nat, lo: nat, hi: nat)
    requires IsScene(s, account, lo, lo, hi) && lo <= hi
    ensures IsScene(Opened(s, account, hi, AgentFound(hi, 0)), account, lo, lo, hi + 1)
  {
  }

  /** None of the four steps admits anyone. */
  lemma NoneAdmitted(s: State, account: nat, lo: nat, hi: nat, phase: Phase)
    requires IsScene(s, account, lo, lo, hi) && lo <= hi && !phase.Allowed? && !phase.Inserted?
    ensures Admitted(Issued(s, account, hi), account) == Admitted(Opened(s, account, hi, phase), account) == {}
  {
  }

  lemma {:induction false} Opens(steps: seq<Step>, limits: Limits, lo: nat, hi: nat) returns (longer: seq<Step>)
    requires Leads(steps, limits, lo, lo, hi) && lo <= hi
    ensures Leads(longer, limits, lo, lo, hi + 1)
  {
    var s, a := RunWithin(steps, limits).value, limits.account;
    OneIssues(s, a, lo, hi);
    OneClaims(s, a, lo, hi);
    OneFindsItsAgent(s, a, lo, hi);
    OneOpens(s, a, lo, hi);
    NoneAdmitted(s, a, lo, hi, Started);
    NoneAdmitted(s, a, lo, hi, Claimed(hi));
    NoneAdmitted(s, a, lo, hi, AgentFound(hi, 0));
    hide RunWithin;
    hide Next;
    hide Enabled;
    hide IsScene;
    hide Issued;
    hide Opened;
    hide Admitted;
    var issue, begin := Issue(hi, a, 0, Routing(hi), 1), Begin(hi, a, Routing(hi), 0);
    Then(steps, limits, s, issue, Issued(s, a, hi));
    longer := steps + [issue];
    Then(longer, limits, Issued(s, a, hi), begin, Opened(s, a, hi, Started));
    longer := longer + [begin];
    Then(longer, limits, Opened(s, a, hi, Started), Claim(hi, hi), Opened(s, a, hi, Claimed(hi)));
    longer := longer + [Claim(hi, hi)];
    Then(longer, limits, Opened(s, a, hi, Claimed(hi)), CheckAgent(hi), Opened(s, a, hi, AgentFound(hi, 0)));
    longer := longer + [CheckAgent(hi)];
  }

  function Checked(s: State, c: nat): State
    requires c in s.txs
  {
    At(s, c, TokenRedemption.Phase.Allowed(c, 0))
  }

  lemma OneChecks(s: State, limits: Limits, lo: nat, c: nat, hi: nat)
    requires IsScene(s, limits.account, lo, c, hi) && lo <= c < hi <= lo + limits.atOnce && lo + 1 < limits.devices
    ensures Enabled(s, CheckQuota(c, limits.devices)) && Next(s, CheckQuota(c, limits.devices)) == Checked(s, c)
    ensures s.txs[c].account == limits.account && |Admitted(Checked(s, c), limits.account)| <= limits.atOnce
  {
    SceneCounts(s, limits.account, lo, c, hi);
    OneMoreAdmitted(s, limits.account, lo, c, hi);
    assert s.txs[c] == Tx(limits.account, Routing(c), 0, AgentFound(c, 0));
    hide LiveDevices;
    hide Admitted;
    hide IsScene;
  }

  lemma OneMoreAdmitted(s: State, account: nat, lo: nat, c: nat, hi: nat)
    requires IsScene(s, account, lo, c, hi) && lo <= c < hi
    ensures |Admitted(Checked(s, c), account)| <= hi - lo
  {
    assert Admitted(Checked(s, c), account) <= R.Between(lo, hi);
    R.SubsetSize(Admitted(Checked(s, c), account), R.Between(lo, hi));
  }

  lemma OneInserts(s: State, account: nat, lo: nat, c: nat, hi: nat)
    requires IsScene(s, account, lo, c, hi) && lo <= c < hi
    ensures Enabled(Checked(s, c), Insert(c, c + 1))
    ensures Next(Checked(s, c), Insert(c, c + 1)) == At(s, c, Inserted(c, 0, c + 1))
  {
    assert c in s.txs && c + 1 !in s.devices;
    hide IsScene;
  }

  lemma OneMoreInserted(s: State, account: nat, lo: nat, c: nat, hi: nat)
    requires IsScene(s, account, lo, c, hi) && lo <= c < hi
    ensures IsScene(At(s, c, Inserted(c, 0, c + 1)), account, lo, c + 1, hi)
  {
  }

  lemma {:induction false} Admits(steps: seq<Step>, limits: Limits, lo: nat, c: nat, hi: nat) returns (longer: seq<Step>)
    requires Leads(steps, limits, lo, c, hi) && lo <= c < hi <= lo + limits.atOnce && lo + 1 < limits.devices
    ensures Leads(longer, limits, lo, c + 1, hi)
  {
    var s := RunWithin(steps, limits).value;
    OneChecks(s, limits, lo, c, hi);
    OneInserts(s, limits.account, lo, c, hi);
    OneMoreInserted(s, limits.account, lo, c, hi);
    SceneCounts(At(s, c, Inserted(c, 0, c + 1)), limits.account, lo, c + 1, hi);
    hide RunWithin;
    hide Next;
    hide Enabled;
    hide IsScene;
    hide Checked;
    hide Admitted;
    Then(steps, limits, s, CheckQuota(c, limits.devices), Checked(s, c));
    longer := steps + [CheckQuota(c, limits.devices)];
    Then(longer, limits, Checked(s, c), Insert(c, c + 1), At(s, c, Inserted(c, 0, c + 1)));
    longer := longer + [Insert(c, c + 1)];
  }

  lemma CommitLeaves(s: State, account: nat, lo: nat, hi: nat)
    requires IsScene(s, account, lo, hi, hi) && lo < hi
    ensures Enabled(s, Commit(lo, lo))
    ensures var s' := Next(s, Commit(lo, lo));
      && s'.tokens == s.tokens[lo := s.tokens[lo].(used := true)]
      && s'.devices == s.devices[lo + 1 := Device(account, false)]
      && s'.pairings.Keys == s.pairings.Keys + {lo}
      && s'.txs == s.txs - {lo} && s'.locks == s.locks - {lo}
  {
    assert s.txs[lo].phase == Inserted(lo, 0, lo + 1) && lo !in s.pairings && lo + 1 !in s.devices;
    assert forall t :: t in s.locks && s.locks[t] == lo <==> t == lo;
    hide IsScene;
  }

  lemma OneCommits(s: State, account: nat, lo: nat, hi: nat)
    requires IsScene(s, account, lo, hi, hi) && lo < hi
    ensures Enabled(s, Commit(lo, lo)) && IsScene(Next(s, Commit(lo, lo)), account, lo + 1, hi, hi)
  {
    CommitLeaves(s, account, lo, hi);
    hide Next;
    hide Enabled;
  }

  lemma {:induction false} Commits(steps: seq<Step>, limits: Limits, lo: nat, hi: nat)
    requires Leads(steps, limits, lo, hi, hi) && lo < hi <= lo + limits.atOnce
    ensures Leads(steps + [Commit(lo, lo)], limits, lo + 1, hi, hi)
  {
    var s := RunWithin(steps, limits).value;
    OneCommits(s, limits.account, lo, hi);
    SceneCounts(Next(s, Commit(lo, lo)), limits.account, lo + 1, hi, hi);
    hide RunWithin;
    hide Next;
    hide Enabled;
    hide IsScene;
    hide Admitted;
    Then(steps, limits, s, Commit(lo, lo), Next(s, Commit(lo, lo)));
  }

  /** As many redemptions as `n` open, all pass the quota check, and then all commit. */
  lemma {:induction false} Together(steps: seq<Step>, limits: Limits, lo: nat, n: nat) returns (longer: seq<Step>)
    requires Leads(steps, limits, lo, lo, lo) && n <= limits.atOnce && lo + 1 < limits.devices
    ensures Leads(longer, limits, lo + n, lo + n, lo + n)
  {
    longer := steps;
    hide Leads;
    for i := 0 to n
      invariant Leads(longer, limits, lo, lo, lo + i)
    {
      longer := Opens(longer, limits, lo, lo + i);
    }
    for i := 0 to n
      invariant Leads(longer, limits, lo, lo + i, lo + n)
    {
      longer := Admits(longer, limits, lo, lo + i, lo + n);
    }
    for i := 0 to n
      invariant Leads(longer, limits, lo + i, lo + n, lo + n)
    {
      Commits(longer, limits, lo + i, lo + n);
      longer := longer + [Commit(lo + i, lo + i)];
    }
  }

  lemma Fills(limits: Limits) returns (steps: seq<Step>)
    requires limits.devices >= 2 && limits.atOnce >= 1
    ensures var n := limits.devices - 2 + limits.atOnce; Leads(steps, limits, n, n, n)
  {
    steps := Enrolled(limits);
    hide Leads;
    for k := 0 to limits.devices - 2
      invariant Leads(steps, limits, k, k, k)
    {
      steps := Together(steps, limits, k, 1);
    }
    steps := Together(steps, limits, limits.devices - 2, limits.atOnce);
  }

  lemma Enrolled(limits: Limits) returns (steps: seq<Step>)
    ensures Leads(steps, limits, 0, 0, 0)
  {
    var next := START.(devices := map[0 := Device(limits.account, false)]);
    assert RunWithin([], limits) == Some(START);
    assert Admitted(next, limits.account) == {};
    Then([], limits, START, Enroll(0, limits.account), next);
    steps := [] + [Enroll(0, limits.account)];
  }

  // ---- Exactly ---------------------------------------------------------------------

  /** No run within the limits leaves the account more live devices than that. */
  ghost predicate NeverMoreThan(limits: Limits, n: int) {
    forall steps :: RunWithin(steps, limits).Some? ==> |LiveDevices(RunWithin(steps, limits).value, limits.account)| <= n
  }

  /** With at most `atOnce` redemptions past the quota check at once, a quota of two or more devices keeps an account
      to the quota and one device less than those, and to no fewer. One at a time, it is kept. */
  lemma {:induction false} QuotaIsKeptExactlyTo(limits: Limits, n: int)
    requires limits.devices >= 2 && limits.atOnce >= 1
    ensures NeverMoreThan(limits, n) <==> n >= limits.devices + limits.atOnce - 1
  {
    var steps := Fills(limits);
    var k := limits.devices - 2 + limits.atOnce;
    SceneCounts(RunWithin(steps, limits).value, limits.account, k, k, k);
    hide RunWithin;
    hide LiveDevices;
    if n >= limits.devices + limits.atOnce - 1 {
      forall steps' | RunWithin(steps', limits).Some?
        ensures |LiveDevices(RunWithin(steps', limits).value, limits.account)| <= n
      {
        RunKeepsWithin(steps', limits);
      }
    }
  }
}
