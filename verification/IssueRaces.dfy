/** How many tokens an account can be issued in an hour when issues overlap, statement by statement under read
    committed: nothing makes one count wait for another issue's insert. */
module IssueRaces {
  import opened Wrappers
  import R = RelayRuns
  import S = RelayStore

  /** An issue in flight: its stamp, which is the instant its transaction began, and whether it has counted. */
  datatype Issue = Issue(stamped: int, counted: bool)

  /** One account's committed tokens with their stamps, and its issues in flight. */
  datatype State = State(tokens: map<nat, int>, issues: map<nat, Issue>)

  const START: State := State(map[], map[])

  datatype Step =
    | Begin(issue: nat, stamped: int)
    | Count(issue: nat, counted: int)
    | Reject(issue: nat, counted: int)
    | Commit(issue: nat, token: nat)
    | Abort(issue: nat)

  function Recent(s: State, since: int): set<nat> {
    set t | t in s.tokens && s.tokens[t] >= since
  }

  predicate Enabled(s: State, step: Step, perHour: nat) {
    match step
    case Begin(x, _) => x !in s.issues
    case Count(x, counted) =>
      x in s.issues && !s.issues[x].counted && |Recent(s, counted - S.HOUR_MS)| < perHour
    case Reject(x, counted) =>
      x in s.issues && !s.issues[x].counted && |Recent(s, counted - S.HOUR_MS)| >= perHour
    case Commit(x, t) => x in s.issues && s.issues[x].counted && t !in s.tokens
    case Abort(x) => x in s.issues
  }

  function Next(s: State, step: Step, perHour: nat): State
    requires Enabled(s, step, perHour)
  {
    match step
    case Begin(x, stamped) => s.(issues := s.issues[x := Issue(stamped, false)])
    case Count(x, _) => s.(issues := s.issues[x := s.issues[x].(counted := true)])
    case Reject(x, _) => s.(issues := s.issues - {x})
    case Commit(x, t) => State(s.tokens[t := s.issues[x].stamped], s.issues - {x})
    case Abort(x) => s.(issues := s.issues - {x})
  }

  /** What a schedule keeps to: each count comes at most `slack` after its stamp, and at most `atOnce` issues of
      the account are in flight at once. */
  datatype Limits = Limits(perHour: nat, slack: int, atOnce: nat)

  predicate Allowed(s: State, step: Step, limits: Limits) {
    && Enabled(s, step, limits.perHour)
    && (step.Count? ==> step.counted - s.issues[step.issue].stamped <= limits.slack)
    && |Next(s, step, limits.perHour).issues| <= limits.atOnce
  }

  /** Where the steps lead from the empty table, if each is allowed. */
  function Run(steps: seq<Step>, limits: Limits): Option<State> {
    if steps == [] then Some(START)
    else
      match Run(steps[..|steps| - 1], limits)
      case None => None
      case Some(s) =>
        var step := steps[|steps| - 1];
        if Allowed(s, step, limits) then Some(Next(s, step, limits.perHour)) else None
  }

  // ---- The bound -----------------------------------------------------------------

  predicate Falls(stamp: int, from: int, length: int) {
    from <= stamp <= from + length
  }

  /** The committed tokens stamped from `from` to `length` later. */
  function Window(s: State, from: int, length: int): set<nat> {
    set t | t in s.tokens && Falls(s.tokens[t], from, length)
  }

  /** The issues in flight that have counted and will be stamped there. */
  function Counting(s: State, from: int, length: int): set<nat> {
    set x | x in s.issues && s.issues[x].counted && Falls(s.issues[x].stamped, from, length)
  }

  /** What the overlap adds: all but one of the issues in flight can have counted the same rows. */
  function Most(limits: Limits): int {
    if limits.perHour == 0 then 0 else limits.perHour + limits.atOnce - 1
  }

  predicate IsWithin(s: State, limits: Limits, from: int) {
    |Window(s, from, S.HOUR_MS - limits.slack)| + |Counting(s, from, S.HOUR_MS - limits.slack)| <= Most(limits)
  }

  ghost predicate WithinMost(s: State, limits: Limits) {
    forall from :: IsWithin(s, limits, from)
  }

  lemma CountKeeps(s: State, step: Step, limits: Limits, from: int)
    requires Allowed(s, step, limits) && step.Count? && IsWithin(s, limits, from)
    ensures IsWithin(Next(s, step, limits.perHour), limits, from)
  {
    var s', length := Next(s, step, limits.perHour), S.HOUR_MS - limits.slack;
    assert Window(s', from, length) == Window(s, from, length);
    if Falls(s.issues[step.issue].stamped, from, length) {
      R.SubsetSize(Window(s, from, length), Recent(s, step.counted - S.HOUR_MS));
      R.SubsetSize(Counting(s', from, length), s'.issues.Keys);
    } else {
      assert Counting(s', from, length) == Counting(s, from, length);
    }
  }

  lemma WindowGrows(s: State, t: nat, stamp: int, from: int, length: int)
    requires t !in s.tokens
    ensures Window(s.(tokens := s.tokens[t := stamp]), from, length)
         == Window(s, from, length) + if Falls(stamp, from, length) then {t} else {}
  {
  }

  lemma CountingShrinks(s: State, tokens: map<nat, int>, x: nat, from: int, length: int)
    requires x in s.issues && s.issues[x].counted
    ensures Counting(State(tokens, s.issues - {x}), from, length) == Counting(s, from, length) - {x}
    ensures x in Counting(s, from, length) <==> Falls(s.issues[x].stamped, from, length)
  {
  }

  /** A commit moves a counted issue into the window its stamp falls in. */
  lemma CommitMoves(s: State, s': State, step: Step, from: int, length: int)
    requires step.Commit? && step.issue in s.issues && s.issues[step.issue].counted && step.token !in s.tokens
    requires s' == State(s.tokens[step.token := s.issues[step.issue].stamped], s.issues - {step.issue})
    ensures |Window(s', from, length)| + |Counting(s', from, length)|
         == |Window(s, from, length)| + |Counting(s, from, length)|
  {
    var stamp := s.issues[step.issue].stamped;
    WindowGrows(s, step.token, stamp, from, length);
    assert Window(s', from, length) == Window(s.(tokens := s'.tokens), from, length);
    CountingShrinks(s, s'.tokens, step.issue, from, length);
    assert step.token !in Window(s, from, length);
    hide Window;
    hide Counting;
    hide Falls;
  }

  lemma CommitKeeps(s: State, step: Step, limits: Limits, from: int)
    requires Allowed(s, step, limits) && step.Commit? && IsWithin(s, limits, from)
    ensures IsWithin(Next(s, step, limits.perHour), limits, from)
  {
    var s', length := Next(s, step, limits.perHour), S.HOUR_MS - limits.slack;
    CommitMoves(s, s', step, from, length);
    hide Counting;
    hide Window;
    hide Next;
    hide Allowed;
  }

  lemma OthersKeep(s: State, step: Step, limits: Limits, from: int)
    requires Allowed(s, step, limits) && !step.Count? && !step.Commit? && IsWithin(s, limits, from)
    ensures IsWithin(Next(s, step, limits.perHour), limits, from)
  {
    var s', length := Next(s, step, limits.perHour), S.HOUR_MS - limits.slack;
    assert Window(s', from, length) == Window(s, from, length);
    R.SubsetSize(Counting(s', from, length), Counting(s, from, length));
  }

  lemma StepKeepsMost(s: State, step: Step, limits: Limits)
    requires Allowed(s, step, limits) && WithinMost(s, limits)
    ensures WithinMost(Next(s, step, limits.perHour), limits)
  {
    hide Next;
    hide IsWithin;
    forall from ensures IsWithin(Next(s, step, limits.perHour), limits, from) {
      assert IsWithin(s, limits, from);
      if step.Count? {
        CountKeeps(s, step, limits, from);
      } else if step.Commit? {
        CommitKeeps(s, step, limits, from);
      } else {
        OthersKeep(s, step, limits, from);
      }
    }
  }

  lemma {:induction false} RunKeepsMost(steps: seq<Step>, limits: Limits)
    requires limits.atOnce >= 1 && Run(steps, limits).Some?
    ensures WithinMost(Run(steps, limits).value, limits)
  {
    if steps == [] {
      var length := S.HOUR_MS - limits.slack;
      forall from ensures IsWithin(START, limits, from) {
        assert Window(START, from, length) == {} && Counting(START, from, length) == {};
      }
    } else {
      hide WithinMost;
      hide Next;
      hide Allowed;
      RunKeepsMost(steps[..|steps| - 1], limits);
      StepKeepsMost(Run(steps[..|steps| - 1], limits).value, steps[|steps| - 1], limits);
    }
  }

  /** In every interleaving with at most `atOnce` issues of the account in flight at once, no interval of an hour
      less `slack` holds more than `perHour + atOnce - 1` of its tokens: with one at a time, `perHour`. */
  lemma OverlapAddsTheOthers(steps: seq<Step>, limits: Limits, from: int)
    requires limits.atOnce >= 1 && Run(steps, limits).Some?
    ensures |Window(Run(steps, limits).value, from, S.HOUR_MS - limits.slack)| <= Most(limits)
  {
    RunKeepsMost(steps, limits);
    assert IsWithin(Run(steps, limits).value, limits, from);
  }

  // ---- The bound is reached ----------------------------------------------------

  /** `k` tokens, and the issues from `lo` up to `hi` in flight, of which those below `c` have counted; all
      stamped 0. */
  ghost predicate IsScene(s: State, k: nat, lo: nat, hi: nat, c: nat) {
    && |s.tokens| == k && (forall t: nat :: t in s.tokens <==> t < k) && (forall t <- s.tokens :: s.tokens[t] == 0)
    && (forall x: nat :: x in s.issues <==> lo <= x < hi)
    && (forall x <- s.issues :: s.issues[x] == Issue(0, x < c))
  }

  lemma SceneHolds(s: State, k: nat, lo: nat, hi: nat, c: nat, since: int)
    requires IsScene(s, k, lo, hi, c) && since <= 0
    ensures |Recent(s, since)| == |Window(s, 0, 0)| == k && |s.issues| <= hi
  {
    assert Recent(s, since) == s.tokens.Keys && Window(s, 0, 0) == s.tokens.Keys;
    R.SubsetSize(s.issues.Keys, R.Between(0, hi));
  }

  /** The steps are allowed, and lead to such a scene. */
  ghost predicate Leads(steps: seq<Step>, limits: Limits, k: nat, lo: nat, hi: nat, c: nat) {
    Run(steps, limits).Some? && IsScene(Run(steps, limits).value, k, lo, hi, c)
  }

  lemma {:induction false} Then(steps: seq<Step>, limits: Limits, step: Step, k: nat, lo: nat, hi: nat, c: nat)
    requires Run(steps, limits).Some? && Enabled(Run(steps, limits).value, step, limits.perHour)
    requires step.Count? ==> step.counted - Run(steps, limits).value.issues[step.issue].stamped <= limits.slack
    requires IsScene(Next(Run(steps, limits).value, step, limits.perHour), k, lo, hi, c) && hi <= limits.atOnce
    ensures Leads(steps + [step], limits, k, lo, hi, c)
  {
    assert (steps + [step])[..|steps|] == steps;
    SceneHolds(Next(Run(steps, limits).value, step, limits.perHour), k, lo, hi, c, 0);
    hide IsScene;
    hide Next;
  }

  lemma Begins(steps: seq<Step>, limits: Limits, k: nat, hi: nat)
    requires Leads(steps, limits, k, 0, hi, 0) && hi < limits.atOnce
    ensures Leads(steps + [Begin(hi, 0)], limits, k, 0, hi + 1, 0)
  {
    hide Run;
    Then(steps, limits, Begin(hi, 0), k, 0, hi + 1, 0);
  }

  lemma Counts(steps: seq<Step>, limits: Limits, k: nat, hi: nat, c: nat)
    requires Leads(steps, limits, k, 0, hi, c) && c < hi <= limits.atOnce
    requires k < limits.perHour && limits.slack <= S.HOUR_MS
    ensures Leads(steps + [Count(c, limits.slack)], limits, k, 0, hi, c + 1)
  {
    hide Run;
    SceneHolds(Run(steps, limits).value, k, 0, hi, c, limits.slack - S.HOUR_MS);
    hide Recent;
    Then(steps, limits, Count(c, limits.slack), k, 0, hi, c + 1);
  }

  lemma Commits(steps: seq<Step>, limits: Limits, k: nat, lo: nat, hi: nat)
    requires Leads(steps, limits, k, lo, hi, hi) && lo < hi <= limits.atOnce
    ensures Leads(steps + [Commit(lo, k)], limits, k + 1, lo + 1, hi, hi)
  {
    hide Run;
    Then(steps, limits, Commit(lo, k), k + 1, lo + 1, hi, hi);
  }

  /** As many issues as `hi` begin, all count, and then all commit. */
  lemma {:induction false} Together(steps: seq<Step>, limits: Limits, k: nat, hi: nat) returns (longer: seq<Step>)
    requires Leads(steps, limits, k, 0, 0, 0) && hi <= limits.atOnce
    requires k < limits.perHour && limits.slack <= S.HOUR_MS
    ensures Leads(longer, limits, k + hi, 0, 0, 0)
  {
    longer := steps;
    hide Leads;
    for i := 0 to hi
      invariant Leads(longer, limits, k, 0, i, 0)
    {
      Begins(longer, limits, k, i);
      longer := longer + [Begin(i, 0)];
    }
    for i := 0 to hi
      invariant Leads(longer, limits, k, 0, hi, i)
    {
      Counts(longer, limits, k, hi, i);
      longer := longer + [Count(i, limits.slack)];
    }
    for i := 0 to hi
      invariant Leads(longer, limits, k + i, i, hi, hi)
    {
      Commits(longer, limits, k + i, i, hi);
      longer := longer + [Commit(i, k + i)];
    }
    NoneLeft(longer, limits, k + hi, hi);
  }

  lemma NoneLeft(steps: seq<Step>, limits: Limits, k: nat, hi: nat)
    requires Leads(steps, limits, k, hi, hi, hi)
    ensures Leads(steps, limits, k, 0, 0, 0)
  {
  }

  /** For every rate, lag and number in flight at once there is a run that leaves that many tokens stamped at one
      instant. */
  lemma {:induction false} Fills(limits: Limits) returns (steps: seq<Step>)
    requires limits.perHour >= 1 && limits.atOnce >= 1 && limits.slack <= S.HOUR_MS
    ensures Leads(steps, limits, limits.perHour - 1 + limits.atOnce, 0, 0, 0)
  {
    steps := [];
    assert Leads(steps, limits, 0, 0, 0, 0);
    hide Leads;
    for k := 0 to limits.perHour - 1
      invariant Leads(steps, limits, k, 0, 0, 0)
    {
      steps := Together(steps, limits, k, 1);
    }
    steps := Together(steps, limits, limits.perHour - 1, limits.atOnce);
  }

  /** One more, stamped as early as its count allows once those have left the counting window. */
  lemma {:induction false} OneMore(steps: seq<Step>, limits: Limits, k: nat, late: int) returns (longer: seq<Step>)
    requires Leads(steps, limits, k, 0, 0, 0) && limits.perHour >= 1 && limits.atOnce >= 1
    requires late == S.HOUR_MS + 1 - limits.slack >= 1
    ensures Run(longer, limits).Some? && |Window(Run(longer, limits).value, 0, late)| >= k + 1
  {
    var s := Run(steps, limits).value;
    var begun := s.(issues := map[0 := Issue(late, false)]);
    var counted := s.(issues := map[0 := Issue(late, true)]);
    assert Recent(begun, 1) == {};
    assert s.issues == map[];
    RunGrows(steps, limits, s, Begin(0, late), begun);
    RunGrows(steps + [Begin(0, late)], limits, begun, Count(0, S.HOUR_MS + 1), counted);
    longer := steps + [Begin(0, late)] + [Count(0, S.HOUR_MS + 1)];
    var done := State(s.tokens[k := late], map[]);
    assert counted.issues - {0} == map[];
    RunGrows(longer, limits, counted, Commit(0, k), done);
    longer := longer + [Commit(0, k)];
    assert Window(done, 0, late) == done.tokens.Keys;
  }

  lemma RunGrows(steps: seq<Step>, limits: Limits, s: State, step: Step, next: State)
    requires Run(steps, limits) == Some(s) && Allowed(s, step, limits) && Next(s, step, limits.perHour) == next
    ensures Run(steps + [step], limits) == Some(next)
  {
    assert (steps + [step])[..|steps|] == steps;
  }

  /** No run within the limits leaves more than the overlap adds in any interval of that length. */
  ghost predicate AlwaysWithin(limits: Limits, length: int) {
    forall steps, from :: Run(steps, limits).Some? ==> |Window(Run(steps, limits).value, from, length)| <= Most(limits)
  }

  /** The bound is exact both ways: it is reached, and it holds for the intervals up to an hour less the lag and
      for no longer one. */
  lemma {:induction false} BoundHoldsExactlyWhen(limits: Limits, length: int) returns (full: seq<Step>)
    requires limits.perHour >= 1 && limits.atOnce >= 1 && limits.slack <= S.HOUR_MS
    ensures AlwaysWithin(limits, length) <==> length <= S.HOUR_MS - limits.slack
    ensures Run(full, limits).Some?
    ensures |Window(Run(full, limits).value, 0, 0)| == Most(limits) == limits.perHour + limits.atOnce - 1
  {
    full := Fills(limits);
    var k := limits.perHour - 1 + limits.atOnce;
    SceneHolds(Run(full, limits).value, k, 0, 0, 0, 0);
    var longer := OneMore(full, limits, k, S.HOUR_MS + 1 - limits.slack);
    hide Run;
    if length <= S.HOUR_MS - limits.slack {
      forall steps, from | Run(steps, limits).Some?
        ensures |Window(Run(steps, limits).value, from, length)| <= Most(limits)
      {
        OverlapAddsTheOthers(steps, limits, from);
        R.SubsetSize(Window(Run(steps, limits).value, from, length),
                     Window(Run(steps, limits).value, from, S.HOUR_MS - limits.slack));
      }
    } else {
      R.SubsetSize(Window(Run(longer, limits).value, 0, S.HOUR_MS + 1 - limits.slack),
                   Window(Run(longer, limits).value, 0, length));
    }
  }

  /** What the quota is for: no hour ever holds more of the account's tokens than it allows. */
  ghost predicate EveryHourIsKept(limits: Limits) {
    forall steps, from :: Run(steps, limits).Some? ==>
      |Window(Run(steps, limits).value, from, S.HOUR_MS)| <= limits.perHour
  }

  /** It is kept exactly when no count comes later than its stamp and no two issues overlap. */
  lemma EveryHourIsKeptExactlyWhen(limits: Limits)
    requires limits.perHour >= 1 && limits.atOnce >= 1 && limits.slack <= S.HOUR_MS
    ensures EveryHourIsKept(limits) <==> limits.slack <= 0 && limits.atOnce == 1
  {
    var full := BoundHoldsExactlyWhen(limits, S.HOUR_MS);
    R.SubsetSize(Window(Run(full, limits).value, 0, 0), Window(Run(full, limits).value, 0, S.HOUR_MS));
    hide Run;
    hide Window;
    if limits.atOnce == 1 {
      assert EveryHourIsKept(limits) <==> AlwaysWithin(limits, S.HOUR_MS);
      hide EveryHourIsKept;
      hide AlwaysWithin;
    } else {
      assert |Window(Run(full, limits).value, 0, S.HOUR_MS)| > limits.perHour;
    }
  }

  // ---- One at a time -----------------------------------------------------------

  /** The account's committed tokens are those of the table, and nothing is in flight. */
  predicate Shows(s: State, db: S.Db, account: nat) {
    && s.tokens == (map t | t in db.tokens && db.tokens[t].account == account :: db.tokens[t].createdAt)
    && s.issues == map[]
  }

  lemma InsertShows(s: State, db: S.Db, db': S.Db, account: nat, t: nat, row: S.Token)
    requires Shows(s, db, account) && row.account == account && db'.tokens == db.tokens[t := row]
    ensures Shows(State(s.tokens[t := row.createdAt], map[]), db', account)
  {
  }

  /** Run alone, an issue's statements commit exactly the tokens of the atomic transaction. */
  lemma AloneIsAtomic(s: State, db: S.Db, account: nat, agent: nat, routing: Bytes, ttlMs: nat, at: S.Instants,
                      x: nat, t: nat)
    requires Shows(s, db, account) && t !in db.tokens
    ensures var (db', r) := S.IssueTx(db, account, agent, routing, ttlMs, at, t);
      var perHour := S.PerHour(db, account);
      var begun := s.(issues := map[x := Issue(at.stamped, false)]);
      var counted := s.(issues := map[x := Issue(at.stamped, true)]);
      && Enabled(s, Begin(x, at.stamped), perHour) && Next(s, Begin(x, at.stamped), perHour) == begun
      && if r == S.IssueLimited then
           Enabled(begun, Reject(x, at.counted), perHour)
           && Shows(Next(begun, Reject(x, at.counted), perHour), db', account)
         else
           Enabled(begun, Count(x, at.counted), perHour) && Next(begun, Count(x, at.counted), perHour) == counted
           && if r == S.Issued then
                Enabled(counted, Commit(x, t), perHour) && Shows(Next(counted, Commit(x, t), perHour), db', account)
              else
                Enabled(counted, Abort(x), perHour) && Shows(Next(counted, Abort(x), perHour), db', account)
  {
    var begun := s.(issues := map[x := Issue(at.stamped, false)]);
    assert Recent(begun, at.counted - S.HOUR_MS) == S.RecentTokens(db, account, at.counted - S.HOUR_MS);
    hide Recent;
    hide S.RecentTokens;
    hide S.IsTaken;
    var (db', r) := S.IssueTx(db, account, agent, routing, ttlMs, at, t);
    if r == S.Issued {
      InsertShows(s, db, db', account, t, db'.tokens[t]);
    }
    assert begun.issues - {x} == map[] && map[x := Issue(at.stamped, true)] - {x} == map[];
    hide Shows;
  }

  /** Every other transaction leaves the account's tokens and their stamps. */
  lemma OtherOpsShow(s: State, db: S.Db, account: nat, op: R.Op, defaults: S.Quota)
    requires Shows(s, db, account) && R.Admissible(db, op) && !(op.Issue? && op.account == account)
    ensures Shows(s, R.After(db, op, defaults), account)
  {
    hide S.ActiveDevices;
    hide S.RecentTokens;
    hide S.IsTaken;
    if op.Redeem? {
      RedeemShows(s, db, account, op, defaults);
    } else {
      hide S.RedeemTx;
    }
  }

  lemma RedeemShows(s: State, db: S.Db, account: nat, op: R.Op, defaults: S.Quota)
    requires Shows(s, db, account) && op.Redeem?
    ensures Shows(s, R.After(db, op, defaults), account)
  {
    var found := S.Find(db, op.account, op.routing);
    assert found.Some? ==> S.IsMatch(db, found.value, op.account, op.routing);
    hide S.ActiveDevices;
  }

  lemma {:induction false} IssueRuns(steps: seq<Step>, limits: Limits, s: State, db: S.Db, op: R.Op, defaults: S.Quota) returns (longer: seq<Step>)
    requires op.Issue? && R.Admissible(db, op) && Shows(s, db, op.account) && Run(steps, limits) == Some(s)
    requires S.PerHour(db, op.account) in {0, limits.perHour} && limits.atOnce >= 1
    requires op.at.counted - op.at.stamped <= limits.slack
    ensures Run(longer, limits).Some? && Shows(Run(longer, limits).value, R.After(db, op, defaults), op.account)
  {
    var r := S.IssueTx(db, op.account, op.agent, op.routing, op.ttlMs, op.at, op.token).1;
    AloneIsAtomic(s, db, op.account, op.agent, op.routing, op.ttlMs, op.at, 0, op.token);
    longer := steps;
    if r == S.Issued {
      var begin, count, commit := Begin(0, op.at.stamped), Count(0, op.at.counted), Commit(0, op.token);
      var begun := s.(issues := map[0 := Issue(op.at.stamped, false)]);
      var counted := s.(issues := map[0 := Issue(op.at.stamped, true)]);
      assert S.PerHour(db, op.account) == limits.perHour;
      var done := Next(counted, commit, limits.perHour);
      hide S.IssueTx;
      hide Next;
      hide Enabled;
      hide Run;
      RunGrows(steps, limits, s, begin, begun);
      RunGrows(steps + [begin], limits, begun, count, counted);
      RunGrows(steps + [begin] + [count], limits, counted, commit, done);
      longer := steps + [begin] + [count] + [commit];
    }
  }

  /** Each account has the quota it was created with. */
  predicate Defaults(db: S.Db, defaults: S.Quota) {
    forall a <- db.quotas :: db.quotas[a] == defaults
  }

  lemma OpKeepsDefaults(db: S.Db, op: R.Op, defaults: S.Quota)
    requires Defaults(db, defaults)
    ensures Defaults(R.After(db, op, defaults), defaults)
  {
    hide S.ActiveDevices;
    hide S.RecentTokens;
    hide S.IsTaken;
  }

  /** Any run of whole transactions is, for each account, a run of its issues' statements one at a time. */
  lemma {:induction false} TransactionsAreARun(db: S.Db, ops: seq<R.Op>, defaults: S.Quota, account: nat, slack: int,
                                               steps: seq<Step>) returns (longer: seq<Step>)
    requires R.AllAdmissible(db, ops, defaults) && Defaults(db, defaults)
    requires forall op <- ops :: op.Issue? ==> op.at.counted - op.at.stamped <= slack
    requires var limits := Limits(defaults.perHour, slack, 1);
      Run(steps, limits).Some? && Shows(Run(steps, limits).value, db, account)
    ensures var limits := Limits(defaults.perHour, slack, 1);
      Run(longer, limits).Some? && Shows(Run(longer, limits).value, R.AfterAll(db, ops, defaults), account)
    decreases |ops|
  {
    longer := steps;
    if ops != [] {
      hide R.After;
      hide R.Admissible;
      hide Shows;
      hide Run;
      var limits, op := Limits(defaults.perHour, slack, 1), ops[0];
      assert op in ops;
      if op.Issue? && op.account == account {
        longer := IssueRuns(steps, limits, Run(steps, limits).value, db, op, defaults);
      } else {
        OtherOpsShow(Run(steps, limits).value, db, account, op, defaults);
      }
      OpKeepsDefaults(db, op, defaults);
      longer := TransactionsAreARun(R.After(db, op, defaults), ops[1..], defaults, account, slack, longer);
    }
  }

  /** The account's rows stamped from `from` to `length` later. */
  function Stamped(db: S.Db, account: nat, from: int, length: int): set<nat> {
    set t | t in db.tokens && db.tokens[t].account == account && Falls(db.tokens[t].createdAt, from, length)
  }

  lemma ShowsStamped(s: State, db: S.Db, account: nat, from: int, length: int)
    requires Shows(s, db, account)
    ensures Window(s, from, length) == Stamped(db, account, from, length)
  {
  }

  lemma NothingYet(limits: Limits, account: nat, defaults: S.Quota)
    ensures Run([], limits) == Some(START) && Shows(START, S.EMPTY, account) && Defaults(S.EMPTY, defaults)
  {
  }

  lemma {:induction false} ShownRate(steps: seq<Step>, limits: Limits, db: S.Db, account: nat, from: int)
    requires limits.atOnce == 1 && Run(steps, limits).Some? && Shows(Run(steps, limits).value, db, account)
    ensures |Stamped(db, account, from, S.HOUR_MS - limits.slack)| <= limits.perHour
  {
    OverlapAddsTheOthers(steps, limits, from);
    ShowsStamped(Run(steps, limits).value, db, account, from, S.HOUR_MS - limits.slack);
  }

  /** So while transactions do not overlap, no interval of an hour less the lag ever holds more of an account's tokens
      than it may be issued in an hour. */
  lemma {:induction false} HourlyRate(ops: seq<R.Op>, defaults: S.Quota, account: nat, slack: int, from: int)
    requires R.AllAdmissible(S.EMPTY, ops, defaults)
    requires forall op <- ops :: op.Issue? ==> op.at.counted - op.at.stamped <= slack
    ensures |Stamped(R.AfterAll(S.EMPTY, ops, defaults), account, from, S.HOUR_MS - slack)| <= defaults.perHour
  {
    hide *;
    NothingYet(Limits(defaults.perHour, slack, 1), account, defaults);
    var steps := TransactionsAreARun(S.EMPTY, ops, defaults, account, slack, []);
    ShownRate(steps, Limits(defaults.perHour, slack, 1), R.AfterAll(S.EMPTY, ops, defaults), account, from);
  }
}
