/** Keeping one helper process alive in the console session. Times are milliseconds of one monotone clock. */
module HelperSupervisor {
  import opened Wrappers

  const RESPAWN_BASE_DELAY: nat := 250
  const RESPAWN_MAX_DELAY: nat := 30_000
  const HEALTHY_AFTER: nat := 20_000

  datatype Process = Process(session: nat, pid: nat)

  datatype Liveness = Exited | Alive | Unknown

  /** What one turn of the loop sees: the console session, the helper's liveness, what a spawn would give,
      and the instants at which it asks how long the helper lasted, schedules a retry, asks whether one is
      due, and notes a start or a failure to start. */
  datatype Turn = Turn(
    session: Option<nat>, liveness: Liveness, spawned: Option<Process>,
    asked: int, scheduled: int, dueAsked: int, noted: int)

  // ---- What a turn does --------------------------------------------------------

  datatype State = State(
    child: Option<Process>, delay: nat, startedAt: Option<int>, retryAt: Option<int>,
    running: bool, session: nat, starts: nat)

  const START: State := State(None, RESPAWN_BASE_DELAY, None, None, false, 0, 0)

  function Doubled(delay: nat): nat {
    Min(delay * 2, RESPAWN_MAX_DELAY)
  }

  predicate LostItsSession(s: State, t: Turn) {
    s.child.Some? && t.session != Some(s.child.value.session)
  }

  function FollowSession(s: State, t: Turn): State {
    if LostItsSession(s, t) then
      s.(child := None, startedAt := None, running := false, session := 0, delay := RESPAWN_BASE_DELAY, retryAt := None)
    else s
  }

  function Lasted(s: State, t: Turn): int {
    if s.startedAt.Some? then t.asked - s.startedAt.value else 0
  }

  function CheckExit(s: State, t: Turn): State {
    if s.child.None? || t.liveness.Alive? then s
    else if t.liveness.Exited? then
      var delay := if Lasted(s, t) >= HEALTHY_AFTER then RESPAWN_BASE_DELAY else Doubled(s.delay);
      s.(child := None, startedAt := None, running := false, session := 0, delay := delay,
         retryAt := Some(t.scheduled + delay))
    else
      s.(child := None, startedAt := None, running := false, retryAt := Some(t.scheduled + s.delay))
  }

  predicate Attempts(s: State, t: Turn) {
    s.child.None? && t.session.Some? && (s.retryAt.Some? ==> t.dueAsked >= s.retryAt.value)
  }

  function StartOne(s: State, t: Turn): State {
    if !Attempts(s, t) then s
    else
      match t.spawned
      case Some(process) =>
        s.(running := true, session := process.session, starts := s.starts + 1, startedAt := Some(t.noted),
           child := Some(process), retryAt := None)
      case None => s.(delay := Doubled(s.delay), retryAt := Some(t.noted + Doubled(s.delay)))
  }

  /** The state in which the turn decides whether to start a helper. */
  function Deciding(s: State, t: Turn): State {
    CheckExit(FollowSession(s, t), t)
  }

  function Next(s: State, t: Turn): State {
    StartOne(Deciding(s, t), t)
  }

  // ---- The loop --------------------------------------------------------------

  class Supervisor {
    var child: Option<Process>
    var delay: nat
    var startedAt: Option<int>
    var retryAt: Option<int>
    /** The status others read. */
    var running: bool
    var session: nat
    var starts: nat

    constructor ()
      ensures Contents() == START
    {
      child, delay, startedAt, retryAt, running, session, starts := None, RESPAWN_BASE_DELAY, None, None, false, 0, 0;
    }

    function Contents(): State
      reads this
    {
      State(child, delay, startedAt, retryAt, running, session, starts)
    }

    /** One turn of the supervision loop. */
    method Iterate(t: Turn)
      modifies this
      ensures Contents() == Next(old(Contents()), t)
    {
      if child.Some? && t.session != Some(child.value.session) {
        child, startedAt := None, None;
        running, session := false, 0;
        delay, retryAt := RESPAWN_BASE_DELAY, None;
      }
      if child.Some? {
        match t.liveness {
          case Exited =>
            var lasted := if startedAt.Some? then t.asked - startedAt.value else 0;
            delay := if lasted >= HEALTHY_AFTER then RESPAWN_BASE_DELAY else Min(delay * 2, RESPAWN_MAX_DELAY);
            child, startedAt := None, None;
            running, session := false, 0;
            retryAt := Some(t.scheduled + delay);
          case Alive =>
          case Unknown =>
            child, startedAt := None, None;
            running := false;
            retryAt := Some(t.scheduled + delay);
        }
      }
      if child.None? && t.session.Some? {
        if retryAt.None? || t.dueAsked >= retryAt.value {
          match t.spawned {
            case Some(process) =>
              running, session, starts := true, process.session, starts + 1;
              startedAt, child, retryAt := Some(t.noted), t.spawned, None;
            case None =>
              delay := Min(delay * 2, RESPAWN_MAX_DELAY);
              retryAt := Some(t.noted + delay);
          }
        }
      }
    }

    /** The loop, over what its turns see. */
    method Supervise(turns: seq<Turn>)
      modifies this
      ensures Contents() == After(old(Contents()), turns).(running := false)
    {
      for i := 0 to |turns|
        invariant Contents() == After(old(Contents()), turns[..i])
      {
        assert turns[..i + 1][..i] == turns[..i];
        Iterate(turns[i]);
      }
      assert turns[..|turns|] == turns;
      running := false;
    }
  }

  function After(s: State, turns: seq<Turn>): State
    decreases |turns|
  {
    if turns == [] then s else Next(After(s, turns[..|turns| - 1]), turns[|turns| - 1])
  }

  // ---- The status is the truth ---------------------------------------------------

  /** `running` says exactly whether a child is held, and then names its session. */
  predicate Truthful(s: State) {
    && (s.running <==> s.child.Some?)
    && (s.startedAt.Some? <==> s.child.Some?)
    && (s.child.Some? ==> s.session == s.child.value.session && s.retryAt.None?)
  }

  lemma {:induction false} AlwaysTruthful(turns: seq<Turn>)
    ensures Truthful(After(START, turns))
  {
    if turns != [] {
      AlwaysTruthful(turns[..|turns| - 1]);
    }
  }

  /** The last turns: a liveness check failed on a helper in a session other than 0, and nothing was
      started from that turn on. */
  predicate LostToFailedCheck(turns: seq<Turn>)
    decreases |turns|
  {
    turns != []
    && (var n := |turns| - 1;
        var before := After(START, turns[..n]);
        var t := turns[n];
        && !(Attempts(Deciding(before, t), t) && t.spawned.Some?)
        && (if before.child.Some? then
              !LostItsSession(before, t) && t.liveness.Unknown? && before.child.value.session != 0
            else LostToFailedCheck(turns[..n])))
  }

  /** A session is reported without a helper in it exactly after a failed liveness check, until the next start. */
  lemma {:induction false} StaleSessionExactlyWhen(turns: seq<Turn>)
    ensures After(START, turns).child.None? && After(START, turns).session != 0 <==> LostToFailedCheck(turns)
  {
    if turns != [] {
      AlwaysTruthful(turns[..|turns| - 1]);
      StaleSessionExactlyWhen(turns[..|turns| - 1]);
    }
  }

  /** That happens: after a failed liveness check the session is still reported, with no helper in it. */
  lemma SessionOutlivesAFailedCheck(process: Process)
    requires process.session != 0
    ensures exists turns :: var s := After(START, turns); s.child.None? && s.session != 0
  {
    var started := Turn(Some(process.session), Alive, Some(process), 0, 0, 0, 0);
    var lost := Turn(Some(process.session), Unknown, None, 0, 0, 0, 0);
    var turns := [started, lost];
    assert turns[..1] == [started] && turns[..1][..0] == [];
    assert After(START, turns[..1]) == Next(START, started);
    assert After(START, turns) == Next(Next(START, started), lost);
  }

  // ---- Pacing ----------------------------------------------------------------

  /** The delay after `k` failures since the last reset. */
  function Backoff(k: nat): nat {
    Min(RESPAWN_BASE_DELAY * Pow2(k), RESPAWN_MAX_DELAY)
  }

  lemma BackoffDoubles(k: nat)
    ensures Doubled(Backoff(k)) == Backoff(k + 1)
  {
  }

  /** The count of failures after one more turn. A helper that died young, and one that could not be started,
      are failures; one that lasted, or lost its session, starts the count again. A liveness check that fails
      counts as neither. */
  function CountAfter(s: State, count: nat, t: Turn): nat {
    var kept := if LostItsSession(s, t) then 0 else count;
    var followed := FollowSession(s, t);
    var checked := if followed.child.Some? && t.liveness.Exited?
                   then (if Lasted(followed, t) >= HEALTHY_AFTER then 0 else kept + 1) else kept;
    if Attempts(Deciding(s, t), t) && t.spawned.None? then checked + 1 else checked
  }

  function FailuresAfter(turns: seq<Turn>): nat {
    if turns == [] then 0
    else
      var n := |turns| - 1;
      CountAfter(After(START, turns[..n]), FailuresAfter(turns[..n]), turns[n])
  }

  lemma TurnCountsFailures(s: State, count: nat, t: Turn)
    requires s.delay == Backoff(count)
    ensures Next(s, t).delay == Backoff(CountAfter(s, count, t))
  {
    assert Backoff(0) == RESPAWN_BASE_DELAY;
    BackoffDoubles(count);
    BackoffDoubles(count + 1);
    BackoffDoubles(0);
    BackoffDoubles(1);
    hide Backoff;
    hide Doubled;
  }

  lemma {:induction false} DelayCountsFailures(turns: seq<Turn>)
    ensures After(START, turns).delay == Backoff(FailuresAfter(turns))
  {
    if turns == [] {
      assert Backoff(0) == RESPAWN_BASE_DELAY;
    } else {
      var n := |turns| - 1;
      DelayCountsFailures(turns[..n]);
      hide Backoff;
      hide CountAfter;
      hide Next;
      TurnCountsFailures(After(START, turns[..n]), FailuresAfter(turns[..n]), turns[n]);
    }
  }

  predicate InOrder(from: int, turns: seq<Turn>) {
    turns == []
    || (var n := |turns| - 1;
        && InOrder(from, turns[..n])
        && (if n == 0 then from else turns[n - 1].noted)
           <= turns[n].asked <= turns[n].scheduled <= turns[n].dueAsked <= turns[n].noted)
  }

  /** Turn `i` leaves no helper and a retry to wait for. */
  predicate FailsAt(turns: seq<Turn>, i: nat) {
    i < |turns| && After(START, turns[..i + 1]).retryAt.Some?
    && (After(START, turns[..i]).child.Some? || Attempts(Deciding(After(START, turns[..i]), turns[i]), turns[i]))
  }

  predicate AttemptsAt(turns: seq<Turn>, i: nat) {
    i < |turns| && Attempts(Deciding(After(START, turns[..i]), turns[i]), turns[i])
  }

  lemma {:induction false} WaitingStandsStill(turns: seq<Turn>, i: nat, j: nat)
    requires i < j <= |turns| && After(START, turns[..i + 1]).child.None?
    requires forall k :: i < k < j ==> !AttemptsAt(turns, k)
    ensures After(START, turns[..j]) == After(START, turns[..i + 1])
    decreases j
  {
    if j > i + 1 {
      assert turns[..j][..j - 1] == turns[..j - 1];
      WaitingStandsStill(turns, i, j - 1);
      assert !AttemptsAt(turns, j - 1);
    }
  }

  /** The earliest the failure at turn `i` can have been noticed. */
  lemma FailureSchedules(turns: seq<Turn>, i: nat)
    requires FailsAt(turns, i) && InOrder(0, turns[..i + 1])
    ensures After(START, turns[..i + 1]).retryAt.value >= turns[i].scheduled + Backoff(FailuresAfter(turns[..i + 1]))
    ensures After(START, turns[..i + 1]).child.None?
  {
    DelayCountsFailures(turns[..i + 1]);
    assert turns[..i + 1][..i] == turns[..i];
    AlwaysTruthful(turns[..i]);
  }

  /** With `k` failures since the last reset, the next start comes at least min(250 · 2^k, 30 000) ms after
      the last of them, even if the console changes session while it is waited for. */
  lemma NextStartWaits(turns: seq<Turn>, i: nat, j: nat)
    requires i < j && FailsAt(turns, i) && AttemptsAt(turns, j) && InOrder(0, turns[..i + 1])
    requires forall k :: i < k < j ==> !AttemptsAt(turns, k)
    ensures turns[j].dueAsked >= turns[i].scheduled + Backoff(FailuresAfter(turns[..i + 1]))
  {
    FailureSchedules(turns, i);
    WaitingStandsStill(turns, i, j);
  }

  /** A turn that sees a helper die and starts another has waited as long. */
  lemma RestartInTheSameTurnWaits(turns: seq<Turn>, i: nat)
    requires AttemptsAt(turns, i) && InOrder(0, turns[..i + 1])
    requires FollowSession(After(START, turns[..i]), turns[i]).child.Some?
    ensures turns[i].dueAsked >= turns[i].scheduled + Deciding(After(START, turns[..i]), turns[i]).delay
  {
    AlwaysTruthful(turns[..i]);
  }

  // ---- Crash loops -----------------------------------------------------------

  /** Nothing in the turns starts the count again or leaves it alone. */
  predicate CrashLoop(turns: seq<Turn>) {
    turns == []
    || (var n := |turns| - 1;
        var before := After(START, turns[..n]);
        && CrashLoop(turns[..n])
        && !LostItsSession(before, turns[n])
        && (before.child.Some? ==>
              !turns[n].liveness.Unknown? && (turns[n].liveness.Exited? ==> Lasted(before, turns[n]) < HEALTHY_AFTER)))
  }

  /** How many starts have been attempted. */
  function AttemptCount(turns: seq<Turn>): nat {
    if turns == [] then 0
    else AttemptCount(turns[..|turns| - 1]) + if AttemptsAt(turns, |turns| - 1) then 1 else 0
  }

  /** 500, 1 000, 2 000 and so on, `k` terms of it, no term over 30 000. */
  function TotalWait(k: nat): nat {
    if k == 0 then 0 else TotalWait(k - 1) + Backoff(k)
  }

  function LastNoted(from: int, turns: seq<Turn>): int {
    if turns == [] then from else turns[|turns| - 1].noted
  }

  /** Where a crash loop that has attempted `tried` starts stands. */
  predicate Paced(from: int, s: State, tried: nat, noted: int) {
    if s.child.Some? then
      tried >= 1 && s.delay == Backoff(tried - 1) && s.startedAt.Some?
      && from + TotalWait(tried - 1) <= s.startedAt.value <= noted
    else
      s.delay == Backoff(tried)
      && (if tried == 0 then s.retryAt.None? else s.retryAt.Some? && s.retryAt.value >= from + TotalWait(tried))
  }

  lemma ExitKeepsPace(from: int, s: State, t: Turn, tried: nat, noted: int)
    requires Paced(from, s, tried, noted) && noted <= t.scheduled && !LostItsSession(s, t)
    requires s.child.Some? ==> !t.liveness.Unknown? && (t.liveness.Exited? ==> Lasted(s, t) < HEALTHY_AFTER)
    ensures Paced(from, Deciding(s, t), tried, noted)
  {
    if s.child.Some? {
      BackoffDoubles(tried - 1);
    }
  }

  lemma StartKeepsPace(from: int, s: State, t: Turn, tried: nat, noted: int)
    requires Paced(from, s, tried, noted) && from <= t.dueAsked <= t.noted && noted <= t.noted
    ensures Paced(from, StartOne(s, t), tried + (if Attempts(s, t) then 1 else 0), t.noted)
    ensures Attempts(s, t) ==> t.dueAsked >= from + TotalWait(tried)
  {
    BackoffDoubles(tried);
  }

  lemma {:induction false} LastNotedIsLater(from: int, turns: seq<Turn>)
    requires InOrder(from, turns)
    ensures from <= LastNoted(from, turns)
  {
    if turns != [] {
      LastNotedIsLater(from, turns[..|turns| - 1]);
    }
  }

  lemma {:induction false} CrashLoopPace(from: int, turns: seq<Turn>)
    requires CrashLoop(turns) && InOrder(from, turns)
    ensures Paced(from, After(START, turns), AttemptCount(turns), LastNoted(from, turns))
  {
    if turns != [] {
      var n := |turns| - 1;
      var before := After(START, turns[..n]);
      CrashLoopPace(from, turns[..n]);
      LastNotedIsLater(from, turns[..n]);
      hide Paced;
      ExitKeepsPace(from, before, turns[n], AttemptCount(turns[..n]), LastNoted(from, turns[..n]));
      StartKeepsPace(from, Deciding(before, turns[n]), turns[n], AttemptCount(turns[..n]), LastNoted(from, turns[..n]));
    }
  }

  /** In a crash loop that began no earlier than `from`, attempt number `k` + 1 comes no earlier than the
      first `k` delays added up. */
  lemma CrashLoopIsThrottled(from: int, turns: seq<Turn>, i: nat)
    requires i < |turns| && AttemptsAt(turns, i) && CrashLoop(turns[..i + 1]) && InOrder(from, turns[..i + 1])
    ensures turns[i].dueAsked >= from + TotalWait(AttemptCount(turns[..i]))
  {
    assert turns[..i + 1][..i] == turns[..i];
    var before := After(START, turns[..i]);
    CrashLoopPace(from, turns[..i]);
    LastNotedIsLater(from, turns[..i]);
    ExitKeepsPace(from, before, turns[i], AttemptCount(turns[..i]), LastNoted(from, turns[..i]));
    StartKeepsPace(from, Deciding(before, turns[i]), turns[i], AttemptCount(turns[..i]), LastNoted(from, turns[..i]));
  }
}
