/** The relay link's retry delays, and the attach-and-retry cycle that waits them out. */
module RelaySupervisor {
  import opened Wrappers
  import opened RelayLink

  const U32_MAX: nat := 0xFFFF_FFFF
  const U64_LIMIT: nat := 0x1_0000_0000_0000_0000
  const NANOS_PER_MILLI: nat := 1_000_000

  const BACKOFF_BASE: nat := 1_000 * NANOS_PER_MILLI
  const BACKOFF_CAP: nat := 60_000 * NANOS_PER_MILLI
  const HEALTHY_AFTER: nat := 30_000

  // ---- Jittered exponential backoff --------------------------------------------

  /** The delay before jitter, in nanoseconds. */
  function Scaled(base: nat, cap: nat, attempt: nat): nat {
    Min(base * Pow2(Min(attempt, 16)), cap)
  }

  /** In whole milliseconds, kept in 64 bits. */
  function Millis(nanos: nat): nat {
    (nanos / NANOS_PER_MILLI) % U64_LIMIT
  }

  /** The delay in milliseconds for one reading of the noise. */
  function Jittered(scaled: nat, noise: nat): nat {
    var spread := Millis(scaled) / 2;
    var offset := if spread == 0 then 0 else noise % spread;
    Max(Min(Millis(scaled) - spread / 2 + offset, U64_LIMIT - 1), 1)
  }

  class Backoff {
    const base: nat
    const cap: nat
    var attempt: nat

    constructor (base: nat, cap: nat)
      ensures this.base == base && this.cap == cap && attempt == 0
    {
      this.base, this.cap, attempt := base, cap, 0;
    }

    method NextDelay(noise: nat) returns (millis: nat)
      requires attempt <= U32_MAX
      modifies this
      ensures millis == Jittered(Scaled(base, cap, old(attempt)), noise)
      ensures attempt == Min(old(attempt) + 1, U32_MAX)
    {
      var scaled := Scaled(base, cap, attempt);
      attempt := Min(attempt + 1, U32_MAX);
      var spread := Millis(scaled) / 2;
      var offset := if spread == 0 then 0 else noise % spread;
      millis := Max(Min(Millis(scaled) - spread / 2 + offset, U64_LIMIT - 1), 1);
    }

    method Reset()
      modifies this
      ensures attempt == 0
    {
      attempt := 0;
    }
  }

  /** Any delay shorter than 290 million years. */
  predicate Representable(nanos: nat) {
    nanos / NANOS_PER_MILLI < U64_LIMIT / 2
  }

  /** Taking off a quarter and adding back less than a half. */
  lemma QuarterEitherSide(s: nat, offset: nat)
    requires offset < s / 2 || offset == s / 2 == 0
    ensures 3 * s <= 4 * (s - s / 2 / 2 + offset) <= 5 * s
  {
  }

  /** Whatever the clock's noise, a delay of a millisecond or more stays within a quarter of itself either
      side, and a shorter one becomes a millisecond. */
  lemma WithinAQuarter(scaled: nat, noise: nat)
    requires Representable(scaled)
    ensures var s := scaled / NANOS_PER_MILLI;
      var delay := Jittered(scaled, noise);
      if s == 0 then delay == 1 else 3 * s <= 4 * delay <= 5 * s
  {
    var s := scaled / NANOS_PER_MILLI;
    assert Millis(scaled) == s;
    hide Millis;
    QuarterEitherSide(s, if s / 2 == 0 then 0 else noise % (s / 2));
  }

  lemma DoublingScales(base: nat, cap: nat, attempt: nat)
    requires attempt < 16 && base * Pow2(attempt + 1) <= cap
    ensures Scaled(base, cap, attempt + 1) == 2 * Scaled(base, cap, attempt)
    ensures Scaled(base, cap, attempt) >= base
  {
    var p := Pow2(attempt);
    assert Pow2(attempt + 1) == 2 * p;
    hide Pow2;
    TimesDouble(base, p);
  }

  lemma TimesDouble(base: nat, p: nat)
    requires p >= 1
    ensures base * (2 * p) == 2 * (base * p) && base * p >= base
  {
  }

  /** While doubling stays under the cap, each delay exceeds the one before, whatever the noise. */
  lemma GrowsWhileDoubling(base: nat, cap: nat, attempt: nat, noise: nat, noise': nat)
    requires attempt < 16 && base * Pow2(attempt + 1) <= cap && base >= NANOS_PER_MILLI && Representable(cap)
    ensures Jittered(Scaled(base, cap, attempt), noise) < Jittered(Scaled(base, cap, attempt + 1), noise')
  {
    DoublingScales(base, cap, attempt);
    var s := Scaled(base, cap, attempt);
    WithinAQuarter(s, noise);
    WithinAQuarter(2 * s, noise');
    assert (2 * s) / NANOS_PER_MILLI >= 2 * (s / NANOS_PER_MILLI) >= 2;
  }

  // ---- The cycle -------------------------------------------------------------

  /** One turn: the attach fails, or a link lasts a while and then ends. `None` is the agent stopping. */
  datatype Turn = Unreachable(noise: nat) | Attached(lastedMs: nat, end: Option<Disconnect>, noise: nat)

  predicate Ends(turn: Turn) {
    turn.Attached? && turn.end != Some(Retryable)
  }

  function AttemptAt(attempt: nat, turn: Turn): nat {
    if turn.Attached? && turn.lastedMs >= HEALTHY_AFTER then 0 else attempt
  }

  /** How many delays have been drawn since the last healthy link, after the turns so far. */
  function Attempts(turns: seq<Turn>): nat {
    if turns == [] then 0 else Min(AttemptAt(Attempts(turns[..|turns| - 1]), turns[|turns| - 1]) + 1, U32_MAX)
  }

  /** The wait after the last of the turns. */
  function WaitAfter(turns: seq<Turn>): nat
    requires turns != []
  {
    var n := |turns| - 1;
    Jittered(Scaled(BACKOFF_BASE, BACKOFF_CAP, AttemptAt(Attempts(turns[..n]), turns[n])), turns[n].noise)
  }

  class Status {
    var attached: bool
    var attachments: nat

    constructor ()
      ensures !attached && attachments == 0
    {
      attached, attachments := false, 0;
    }
  }

  /** How many of the turns got a link. */
  function Links(turns: seq<Turn>): nat {
    if turns == [] then 0 else Links(turns[..|turns| - 1]) + if turns[|turns| - 1].Attached? then 1 else 0
  }

  lemma OneMoreTurn(turns: seq<Turn>, n: nat)
    requires n < |turns|
    ensures var before := AttemptAt(Attempts(turns[..n]), turns[n]);
      && Attempts(turns[..n + 1]) == Min(before + 1, U32_MAX)
      && WaitAfter(turns[..n + 1]) == Jittered(Scaled(BACKOFF_BASE, BACKOFF_CAP, before), turns[n].noise)
      && Links(turns[..n + 1]) == Links(turns[..n]) + if turns[n].Attached? then 1 else 0
  {
    assert turns[..n + 1][..n] == turns[..n];
  }

  /** Attach, serve, wait, and again, over what the network brings. `tried` is how many turns were taken. */
  method Supervise(turns: seq<Turn>, status: Status) returns (waits: seq<nat>, tried: nat)
    modifies status
    ensures tried <= |turns|
    ensures forall i :: 0 <= i < tried - 1 ==> !Ends(turns[i])
    ensures tried < |turns| ==> tried > 0 && Ends(turns[tried - 1])
    ensures |waits| == if tried > 0 && Ends(turns[tried - 1]) then tried - 1 else tried
    ensures forall i :: 0 <= i < |waits| ==> waits[i] == WaitAfter(turns[..i + 1])
    ensures status.attached ==> old(status.attached)
    ensures status.attachments == old(status.attachments) + Links(turns[..tried])
  {
    hide Jittered;
    hide Scaled;
    hide WaitAfter;
    var backoff := new Backoff(BACKOFF_BASE, BACKOFF_CAP);
    waits, tried := [], 0;
    while tried < |turns|
      invariant tried <= |turns| && |waits| == tried
      invariant backoff.base == BACKOFF_BASE && backoff.cap == BACKOFF_CAP && backoff.attempt <= U32_MAX
      invariant fresh(backoff) && backoff.attempt == Attempts(turns[..tried])
      invariant forall i :: 0 <= i < tried ==> !Ends(turns[i])
      invariant forall i :: 0 <= i < tried ==> waits[i] == WaitAfter(turns[..i + 1])
      invariant status.attached ==> old(status.attached)
      invariant status.attachments == old(status.attachments) + Links(turns[..tried])
    {
      var turn := turns[tried];
      OneMoreTurn(turns, tried);
      hide Attempts;
      hide Links;
      tried := tried + 1;
      match turn {
        case Attached(lastedMs, end, _) =>
          status.attached := true;
          status.attachments := status.attachments + 1;
          status.attached := false;
          if lastedMs >= HEALTHY_AFTER {
            backoff.Reset();
          }
          if end != Some(Retryable) {
            return;
          }
        case Unreachable(_) =>
      }
      var delay := backoff.NextDelay(turn.noise);
      waits := waits + [delay];
    }
  }

  /** None of the last `k` turns was a healthy link. */
  predicate Failing(turns: seq<Turn>, k: nat) {
    k <= |turns| && forall i :: |turns| - k <= i < |turns| ==> !(turns[i].Attached? && turns[i].lastedMs >= HEALTHY_AFTER)
  }

  lemma {:induction false} FailuresAreCounted(turns: seq<Turn>, k: nat)
    requires Failing(turns, k) && k <= U32_MAX
    ensures Attempts(turns) >= k
    decreases k
  {
    if k > 0 {
      FailuresAreCounted(turns[..|turns| - 1], k - 1);
    }
  }

  lemma {:induction false} Pow2Grows(j: nat, k: nat)
    requires j <= k
    ensures Pow2(j) <= Pow2(k)
    decreases k
  {
    if j < k {
      Pow2Grows(j, k - 1);
    }
  }

  /** After `k` further failures in a row, the wait is at least three quarters of 1 s doubled `k` times, up
      to a minute; and no wait exceeds a minute and a quarter. */
  lemma WaitsAreLongEnough(turns: seq<Turn>, k: nat)
    requires Failing(turns, k + 1) && k + 1 <= U32_MAX
    ensures 4 * WaitAfter(turns) >= 3 * Min(1_000 * Pow2(Min(k, 16)), 60_000)
    ensures WaitAfter(turns) <= 75_000
  {
    var n := |turns| - 1;
    FailuresAreCounted(turns[..n], k);
    var attempt := AttemptAt(Attempts(turns[..n]), turns[n]);
    assert attempt >= k;
    Pow2Grows(Min(k, 16), Min(attempt, 16));
    hide Pow2;
    hide Scaled;
    hide Jittered;
    hide Attempts;
    var scaled := Scaled(BACKOFF_BASE, BACKOFF_CAP, attempt);
    ScaledMillis(attempt);
    WithinAQuarter(scaled, turns[n].noise);
  }

  lemma ScaledMillis(attempt: nat)
    ensures Scaled(BACKOFF_BASE, BACKOFF_CAP, attempt) / NANOS_PER_MILLI == Min(1_000 * Pow2(Min(attempt, 16)), 60_000)
  {
    var p := Pow2(Min(attempt, 16));
    assert BACKOFF_BASE * p == (1_000 * p) * NANOS_PER_MILLI;
  }
}
