/** The fixed-window limiter in front of enrolment and redemption. */
module RateLimiter {
  datatype Window = Window(count: nat, expiresAt: int)
  type Windows = map<string, Window>

  datatype Call = Call(key: string, now: int)

  /** The key's window, unless its time is up. */
  function Open(windows: Windows, key: string, now: int): Windows {
    if key in windows && windows[key].expiresAt > now then map[key := windows[key]] else map[]
  }

  function Evicted(windows: Windows, now: int): Windows {
    map k | k in windows && windows[k].expiresAt > now :: windows[k]
  }

  /** Spending a unit without evicting anything. */
  function Spend(limit: nat, windowMs: nat, windows: Windows, key: string, now: int): (Windows, bool) {
    if key !in windows || windows[key].expiresAt <= now then
      (windows[key := Window(1, now + windowMs)], limit >= 1)
    else
      var count := windows[key].count + 1;
      (windows[key := Window(count, windows[key].expiresAt)], count <= limit)
  }

  function Consumed(limit: nat, windowMs: nat, windows: Windows, key: string, now: int): (Windows, bool) {
    Spend(limit, windowMs, Evicted(windows, now), key, now)
  }

  class FixedWindowLimiter {
    const limit: nat
    const windowMs: nat
    var windows: Windows

    constructor (limit: nat, windowMs: nat)
      ensures this.limit == limit && this.windowMs == windowMs && windows == map[]
    {
      this.limit, this.windowMs, windows := limit, windowMs, map[];
    }

    method EvictExpired(now: int)
      modifies this`windows
      ensures windows == Evicted(old(windows), now)
    {
      var left := windows.Keys;
      while left != {}
        invariant left <= windows.Keys <= old(windows).Keys
        invariant forall k <- windows :: windows[k] == old(windows)[k] && (k in left || windows[k].expiresAt > now)
        invariant forall k <- old(windows) :: k in windows || old(windows)[k].expiresAt <= now
        decreases left
      {
        var k :| k in left;
        if windows[k].expiresAt <= now {
          windows := windows - {k};
        }
        left := left - {k};
      }
    }

    method Consume(key: string, now: int) returns (granted: bool)
      modifies this`windows
      ensures (windows, granted) == Consumed(limit, windowMs, old(windows), key, now)
    {
      EvictExpired(now);
      if key !in windows || windows[key].expiresAt <= now {
        windows := windows[key := Window(1, now + windowMs)];
        return limit >= 1;
      }
      var count := windows[key].count + 1;
      windows := windows[key := windows[key].(count := count)];
      return count <= limit;
    }

    /** What `Consume` would answer now, spending nothing. */
    method Check(key: string, now: int) returns (granted: bool)
      ensures granted == Consumed(limit, windowMs, windows, key, now).1
    {
      if key !in windows || windows[key].expiresAt <= now {
        return limit >= 1;
      }
      return windows[key].count < limit;
    }

    method Reset()
      modifies this`windows
      ensures windows == map[]
    {
      windows := map[];
    }
  }

  // ---- Eviction is unobservable ----------------------------------------------

  predicate Ordered(calls: seq<Call>, from: int)
    decreases |calls|
  {
    calls == [] || (from <= calls[0].now && Ordered(calls[1..], calls[0].now))
  }

  function Answers(limit: nat, windowMs: nat, windows: Windows, calls: seq<Call>): (answers: seq<bool>)
    ensures |answers| == |calls|
    decreases |calls|
  {
    if calls == [] then []
    else
      var (windows', granted) := Consumed(limit, windowMs, windows, calls[0].key, calls[0].now);
      [granted] + Answers(limit, windowMs, windows', calls[1..])
  }

  /** The answers of a limiter that keeps every window for ever. */
  function AnswersKeeping(limit: nat, windowMs: nat, windows: Windows, calls: seq<Call>): (answers: seq<bool>)
    ensures |answers| == |calls|
    decreases |calls|
  {
    if calls == [] then []
    else
      var (windows', granted) := Spend(limit, windowMs, windows, calls[0].key, calls[0].now);
      [granted] + AnswersKeeping(limit, windowMs, windows', calls[1..])
  }

  ghost predicate SameOpen(a: Windows, b: Windows, now: int) {
    forall key :: Open(a, key, now) == Open(b, key, now)
  }

  lemma SpendKeepsSameOpen(limit: nat, windowMs: nat, a: Windows, b: Windows, key: string, now: int)
    requires SameOpen(a, b, now)
    ensures Spend(limit, windowMs, a, key, now).1 == Spend(limit, windowMs, b, key, now).1
    ensures SameOpen(Spend(limit, windowMs, a, key, now).0, Spend(limit, windowMs, b, key, now).0, now)
  {
    var a' := Spend(limit, windowMs, a, key, now).0;
    var b' := Spend(limit, windowMs, b, key, now).0;
    assert Open(a, key, now) == Open(b, key, now);
    assert key in Open(a, key, now) ==> a[key] == Open(a, key, now)[key] == b[key];
    forall k ensures Open(a', k, now) == Open(b', k, now) {
      assert Open(a, k, now) == Open(b, k, now);
    }
  }

  lemma TimeKeepsSameOpen(a: Windows, b: Windows, now: int, later: int)
    requires SameOpen(a, b, now) && now <= later
    ensures SameOpen(a, b, later)
    ensures SameOpen(Evicted(a, later), b, later)
  {
    forall key ensures Open(a, key, later) == Open(b, key, later)
                    && Open(Evicted(a, later), key, later) == Open(b, key, later) {
      assert Open(a, key, now) == Open(b, key, now);
      assert key in Open(a, key, now) ==> a[key] == Open(a, key, now)[key] == b[key];
    }
  }

  /** While the clock does not go back, no sequence of calls can tell that windows are evicted. */
  lemma {:induction false} EvictionIsUnobservable(limit: nat, windowMs: nat, a: Windows, b: Windows, calls: seq<Call>, now: int)
    requires Ordered(calls, now) && SameOpen(a, b, now)
    ensures Answers(limit, windowMs, a, calls) == AnswersKeeping(limit, windowMs, b, calls)
    decreases |calls|
  {
    if calls != [] {
      var call := calls[0];
      TimeKeepsSameOpen(a, b, now, call.now);
      var kept := Evicted(a, call.now);
      SpendKeepsSameOpen(limit, windowMs, kept, b, call.key, call.now);
      EvictionIsUnobservable(limit, windowMs, Spend(limit, windowMs, kept, call.key, call.now).0,
                             Spend(limit, windowMs, b, call.key, call.now).0, calls[1..], call.now);
    }
  }

  // ---- How much is granted -----------------------------------------------------

  predicate Counts(call: Call, key: string, from: int, to: int) {
    call.key == key && from <= call.now <= to
  }

  /** How many of the calls are granted to the key between `from` and `to`, both included. */
  function Granted(calls: seq<Call>, answers: seq<bool>, key: string, from: int, to: int): nat
    requires |calls| == |answers|
    decreases |calls|
  {
    if calls == [] then 0
    else (if Counts(calls[0], key, from, to) && answers[0] then 1 else 0)
         + Granted(calls[1..], answers[1..], key, from, to)
  }

  /** What the windows still allow the key between `from` and one window's length later. */
  function Budget(limit: nat, windowMs: nat, windows: Windows, key: string, from: int): nat {
    if key !in windows || windows[key].expiresAt <= from then 2 * limit
    else
      var left := if windows[key].count < limit then limit - windows[key].count else 0;
      if windows[key].expiresAt <= from + windowMs then left + limit else left
  }

  lemma {:induction false} NothingAfterwards(calls: seq<Call>, answers: seq<bool>, key: string, from: int, to: int, now: int)
    requires |calls| == |answers| && Ordered(calls, now) && now > to
    ensures Granted(calls, answers, key, from, to) == 0
    decreases |calls|
  {
    if calls != [] {
      NothingAfterwards(calls[1..], answers[1..], key, from, to, calls[0].now);
    }
  }

  lemma SpendKeepsBudget(limit: nat, windowMs: nat, windows: Windows, call: Call, key: string, from: int)
    requires windowMs > 0 && call.now <= from + windowMs
    ensures var (windows', granted) := Spend(limit, windowMs, windows, call.key, call.now);
      Budget(limit, windowMs, windows', key, from)
      + (if Counts(call, key, from, from + windowMs) && granted then 1 else 0)
      <= Budget(limit, windowMs, windows, key, from)
  {
  }

  lemma {:induction false} GrantedWithinBudget(limit: nat, windowMs: nat, windows: Windows, calls: seq<Call>, key: string,
                                               from: int, now: int)
    requires windowMs > 0 && Ordered(calls, now)
    ensures Granted(calls, AnswersKeeping(limit, windowMs, windows, calls), key, from, from + windowMs)
         <= Budget(limit, windowMs, windows, key, from)
    decreases |calls|
  {
    if calls != [] {
      var answers := AnswersKeeping(limit, windowMs, windows, calls);
      var windows' := Spend(limit, windowMs, windows, calls[0].key, calls[0].now).0;
      assert answers[1..] == AnswersKeeping(limit, windowMs, windows', calls[1..]);
      if calls[0].now > from + windowMs {
        NothingAfterwards(calls[1..], answers[1..], key, from, from + windowMs, calls[0].now);
      } else {
        SpendKeepsBudget(limit, windowMs, windows, calls[0], key, from);
        GrantedWithinBudget(limit, windowMs, windows', calls[1..], key, from, calls[0].now);
      }
    }
  }

  /** From a fresh limiter, no interval of one window's length grants a key more than twice the limit. */
  lemma AtMostTwiceTheLimit(limit: nat, windowMs: nat, calls: seq<Call>, key: string, from: int, now: int)
    requires windowMs > 0 && Ordered(calls, now)
    ensures Granted(calls, Answers(limit, windowMs, map[], calls), key, from, from + windowMs) <= 2 * limit
  {
    EvictionIsUnobservable(limit, windowMs, map[], map[], calls, now);
    GrantedWithinBudget(limit, windowMs, map[], calls, key, from, now);
  }

  /** From the call that opens a window until it closes, the key is granted at most the limit. */
  lemma AtMostTheLimitPerWindow(limit: nat, windowMs: nat, windows: Windows, calls: seq<Call>, now: int)
    requires windowMs > 0 && Ordered(calls, now) && calls != []
    requires calls[0].key !in Open(windows, calls[0].key, calls[0].now)
    ensures Granted(calls, Answers(limit, windowMs, windows, calls), calls[0].key, calls[0].now, calls[0].now + windowMs - 1) <= limit
  {
    var call := calls[0];
    EvictionIsUnobservable(limit, windowMs, windows, windows, calls, now);
    var answers := AnswersKeeping(limit, windowMs, windows, calls);
    var windows' := Spend(limit, windowMs, windows, call.key, call.now).0;
    assert answers[1..] == AnswersKeeping(limit, windowMs, windows', calls[1..]);
    GrantedWithinBudget(limit, windowMs, windows', calls[1..], call.key, call.now - 1, call.now);
    GrantedFromLater(calls[1..], answers[1..], call.key, call.now, call.now + windowMs - 1);
  }

  lemma {:induction false} GrantedFromLater(calls: seq<Call>, answers: seq<bool>, key: string, from: int, to: int)
    requires |calls| == |answers|
    ensures Granted(calls, answers, key, from, to) <= Granted(calls, answers, key, from - 1, to)
    decreases |calls|
  {
    if calls != [] {
      GrantedFromLater(calls[1..], answers[1..], key, from, to);
    }
  }

  // ---- Twice the limit is reached ------------------------------------------------

  function Burst(key: string, now: int, n: nat): (calls: seq<Call>)
    ensures |calls| == n
  {
    seq(n, _ => Call(key, now))
  }

  lemma {:induction false} BurstOrdered(key: string, now: int, n: nat, rest: seq<Call>, from: int)
    requires from <= now && Ordered(rest, now)
    ensures Ordered(Burst(key, now, n) + rest, from)
    decreases n
  {
    if n == 0 {
      assert Burst(key, now, n) + rest == rest;
      if rest != [] {}
    } else {
      assert (Burst(key, now, n) + rest)[1..] == Burst(key, now, n - 1) + rest;
      BurstOrdered(key, now, n - 1, rest, now);
    }
  }

  /** A burst that stays under the limit of an open window is granted whole. */
  lemma {:induction false} BurstGranted(limit: nat, windowMs: nat, windows: Windows, key: string, now: int, n: nat,
                                        rest: seq<Call>, from: int, to: int)
    requires key in windows && windows[key].expiresAt > now && windows[key].count + n <= limit && from <= now <= to
    ensures var calls := Burst(key, now, n) + rest;
      var windows' := windows[key := Window(windows[key].count + n, windows[key].expiresAt)];
      Granted(calls, AnswersKeeping(limit, windowMs, windows, calls), key, from, to)
      == n + Granted(rest, AnswersKeeping(limit, windowMs, windows', rest), key, from, to)
    decreases n
  {
    var calls := Burst(key, now, n) + rest;
    if n == 0 {
      assert calls == rest;
      assert windows[key := Window(windows[key].count, windows[key].expiresAt)] == windows;
    } else {
      var more := Burst(key, now, n - 1) + rest;
      assert calls == [Call(key, now)] + more;
      var windows1 := windows[key := Window(windows[key].count + 1, windows[key].expiresAt)];
      assert windows1[key := Window(windows1[key].count + (n - 1), windows1[key].expiresAt)]
          == windows[key := Window(windows[key].count + n, windows[key].expiresAt)];
      GrantedStep(limit, windowMs, windows, windows1, Call(key, now), more, from, to);
      hide AnswersKeeping;
      hide Granted;
      BurstGranted(limit, windowMs, windows1, key, now, n - 1, rest, from, to);
    }
  }

  /** A burst of the limit that opens a window is granted whole. */
  lemma OpeningBurstGranted(limit: nat, windowMs: nat, windows: Windows, key: string, now: int, rest: seq<Call>, from: int, to: int)
    requires limit >= 1 && windowMs > 0 && from <= now <= to
    requires key !in windows || windows[key].expiresAt <= now
    ensures var calls := Burst(key, now, limit) + rest;
      var windows' := windows[key := Window(limit, now + windowMs)];
      Granted(calls, AnswersKeeping(limit, windowMs, windows, calls), key, from, to)
      == limit + Granted(rest, AnswersKeeping(limit, windowMs, windows', rest), key, from, to)
  {
    var calls := Burst(key, now, limit) + rest;
    var more := Burst(key, now, limit - 1) + rest;
    assert calls == [Call(key, now)] + more;
    var windows1 := windows[key := Window(1, now + windowMs)];
    assert windows1[key := Window(1 + (limit - 1), now + windowMs)] == windows[key := Window(limit, now + windowMs)];
    GrantedStep(limit, windowMs, windows, windows1, Call(key, now), more, from, to);
    hide AnswersKeeping;
    hide Granted;
    BurstGranted(limit, windowMs, windows1, key, now, limit - 1, rest, from, to);
  }

  lemma GrantedStep(limit: nat, windowMs: nat, windows: Windows, windows': Windows, call: Call, more: seq<Call>, from: int, to: int)
    requires Spend(limit, windowMs, windows, call.key, call.now) == (windows', true) && from <= call.now <= to
    ensures var calls := [call] + more;
      Granted(calls, AnswersKeeping(limit, windowMs, windows, calls), call.key, from, to)
      == 1 + Granted(more, AnswersKeeping(limit, windowMs, windows', more), call.key, from, to)
  {
    var calls := [call] + more;
    assert calls[1..] == more;
    var answers := AnswersKeeping(limit, windowMs, windows, calls);
    assert answers == [true] + AnswersKeeping(limit, windowMs, windows', more);
    assert answers[1..] == AnswersKeeping(limit, windowMs, windows', more);
  }

  /** The bound is exact: two bursts one window apart are both granted in full. */
  lemma TwiceTheLimitIsReached(limit: nat, windowMs: nat, key: string)
    requires limit >= 1 && windowMs > 0
    ensures exists calls ::
      Ordered(calls, 0) && Granted(calls, Answers(limit, windowMs, map[], calls), key, 0, windowMs) == 2 * limit
  {
    var second := Burst(key, windowMs, limit) + [];
    var calls := Burst(key, 0, limit) + second;
    BurstOrdered(key, windowMs, limit, [], 0);
    BurstOrdered(key, 0, limit, second, 0);
    EvictionIsUnobservable(limit, windowMs, map[], map[], calls, 0);
    OpeningBurstGranted(limit, windowMs, map[], key, 0, second, 0, windowMs);
    OpeningBurstGranted(limit, windowMs, map[key := Window(limit, windowMs)], key, windowMs, [], 0, windowMs);
  }
}
