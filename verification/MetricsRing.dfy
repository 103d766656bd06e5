/** A day of samples, and how a request for a part of it becomes at most 512 evenly spaced ones. */
module MetricsRing {
  import opened Wrappers
  import opened SaturatingI64

  datatype DiskUsage = DiskUsage(volume: string, usedBytes: nat, totalBytes: nat)

  /** One whole-machine observation; an absent rate is unknown, not zero. */
  datatype Sample = Sample(
    tsMs: i64, cpuPercent: real, memUsedBytes: nat, memTotalBytes: nat, disks: seq<DiskUsage>,
    rx: Option<nat>, tx: Option<nat>)

  const RING_INTERVAL_MS: nat := 30_000
  const RING_CAPACITY: nat := 2_880
  const MAX_HISTORY_SAMPLES: nat := 512
  const MAX_STEP_MS: nat := RING_INTERVAL_MS * 3 / 2
  const MIN_STEP_MS: nat := RING_INTERVAL_MS / 2
  const U32_MAX: nat := 0xffff_ffff

  datatype History = Backfill(startTs: i64, intervalMs: nat, samples: seq<Sample>)

  // ---- The contiguous run --------------------------------------------------

  /** Sample `k` may join the run that starts at `k + 1`: inside the horizon, at a plausible step. */
  predicate Joins(samples: seq<Sample>, horizon: i64, k: nat)
    requires k < |samples|
  {
    && horizon <= samples[k].tsMs
    && (k + 1 < |samples| ==> MIN_STEP_MS <= SatSub(samples[k + 1].tsMs, samples[k].tsMs) <= MAX_STEP_MS)
  }

  /** Where a backward scan that has reached `k` stops. */
  function ScanFrom(samples: seq<Sample>, horizon: i64, k: nat): (start: nat)
    requires k <= |samples|
    ensures start <= k
  {
    if k > 0 && Joins(samples, horizon, k - 1) then ScanFrom(samples, horizon, k - 1) else k
  }

  function RunStart(samples: seq<Sample>, horizon: i64): (start: nat)
    ensures start <= |samples|
  {
    ScanFrom(samples, horizon, |samples|)
  }

  /** The suffix from `k` on is one gap-free run inside the horizon. */
  ghost predicate GapFree(samples: seq<Sample>, horizon: i64, k: nat) {
    k <= |samples| && forall i :: k <= i < |samples| ==> Joins(samples, horizon, i)
  }

  lemma {:induction false} ScanIsLongest(samples: seq<Sample>, horizon: i64, k: nat)
    requires k <= |samples| && GapFree(samples, horizon, k)
    ensures forall l :: 0 <= l <= k ==> (GapFree(samples, horizon, l) <==> ScanFrom(samples, horizon, k) <= l)
  {
    if k > 0 && Joins(samples, horizon, k - 1) {
      ScanIsLongest(samples, horizon, k - 1);
    }
  }

  /** The scan finds the longest gap-free suffix inside the horizon: a suffix is one exactly when it
      starts no earlier. */
  lemma RunIsLongest(samples: seq<Sample>, horizon: i64)
    ensures forall l :: 0 <= l <= |samples| ==> (GapFree(samples, horizon, l) <==> RunStart(samples, horizon) <= l)
  {
    ScanIsLongest(samples, horizon, |samples|);
  }

  // ---- Decimation ----------------------------------------------------------

  function DivCeil(a: nat, b: nat): (c: nat)
    requires b > 0
    ensures c * b >= a && (c > 0 ==> (c - 1) * b < a)
  {
    if a == 0 then 0
    else
      assert (a + b - 1) == b * ((a + b - 1) / b) + (a + b - 1) % b;
      (a + b - 1) / b
  }

  function Factor(n: nat): (f: nat)
    ensures f >= 1
  {
    Max(1, DivCeil(n, MAX_HISTORY_SAMPLES))
  }

  /** Every `f`-th element, from the first. */
  function StepBy(s: seq<Sample>, f: nat): (r: seq<Sample>)
    requires f > 0
    ensures |r| == DivCeil(|s|, f)
    ensures forall i :: 0 <= i < |r| ==> i * f < |s| && r[i] == s[i * f]
  {
    DecimatedIndex(|s|, f);
    seq(DivCeil(|s|, f), i requires 0 <= i < DivCeil(|s|, f) && i * f < |s| => s[i * f])
  }

  lemma MulMonotone(a: nat, b: nat, f: nat)
    requires a <= b
    ensures a * f <= b * f
    ensures a < b ==> a * f + f <= b * f
  {
    assert b * f == a * f + (b - a) * f;
    if a < b {
      assert (b - a) * f == f + (b - a - 1) * f;
    }
  }

  lemma DecimatedIndex(n: nat, f: nat)
    requires f > 0
    ensures forall i {:trigger i * f} :: 0 <= i < DivCeil(n, f) ==> 0 <= i * f < n
  {
    forall i {:trigger i * f} | 0 <= i < DivCeil(n, f) ensures 0 <= i * f < n {
      MulMonotone(i, DivCeil(n, f) - 1, f);
    }
  }

  function SatMulU32(a: nat, b: nat): nat {
    Min(a * b, U32_MAX)
  }

  // ---- History -------------------------------------------------------------

  function Horizon(backfillSeconds: nat, nowMs: i64): i64 {
    SatSub(nowMs, Clamp(backfillSeconds * 1_000))
  }

  /** The most recent `backfillSeconds` of stored history, as one contiguous decimated run. */
  function HistoryOf(samples: seq<Sample>, backfillSeconds: nat, nowMs: i64): Option<History> {
    if backfillSeconds == 0 then None
    else
      var run := samples[RunStart(samples, Horizon(backfillSeconds, nowMs))..];
      if run == [] then None
      else
        var factor := Factor(|run|);
        Some(Backfill(run[0].tsMs, SatMulU32(RING_INTERVAL_MS, factor), StepBy(run, factor)))
  }

  function Pushed(samples: seq<Sample>, capacity: nat, sample: Sample): (r: seq<Sample>)
    requires capacity >= 1
    ensures |samples| <= capacity ==> |r| <= capacity
  {
    (if |samples| == capacity then samples[1..] else samples) + [sample]
  }

  /** Holds the last `capacity` samples pushed, in the order they came. */
  class RingBuffer {
    var samples: seq<Sample>
    const capacity: nat

    ghost predicate Valid()
      reads this
    {
      1 <= capacity && |samples| <= capacity
    }

    constructor WithCapacity(capacity: nat)
      ensures Valid() && samples == [] && this.capacity == Max(1, capacity)
    {
      samples := [];
      this.capacity := Max(1, capacity);
    }

    method Push(sample: Sample)
      requires Valid()
      modifies this
      ensures Valid()
      ensures samples == Pushed(old(samples), capacity, sample)
    {
      if |samples| == capacity {
        samples := samples[1..];
      }
      samples := samples + [sample];
    }

    method History(backfillSeconds: nat, nowMs: i64) returns (r: Option<History>)
      requires Valid()
      ensures r == HistoryOf(samples, backfillSeconds, nowMs)
    {
      if backfillSeconds == 0 {
        return None;
      }
      var horizon := SatSub(nowMs, Clamp(backfillSeconds * 1_000));
      // Collected newest first, then turned round.
      var run: seq<Sample> := [];
      ghost var start := |samples|;
      while |run| < |samples|
        invariant start == |samples| - |run| && 0 <= start
        invariant forall i :: 0 <= i < |run| ==> run[i] == samples[|samples| - 1 - i]
        invariant ScanFrom(samples, horizon, start) == RunStart(samples, horizon)
      {
        var sample := samples[|samples| - 1 - |run|];
        if sample.tsMs < horizon {
          break;
        }
        if run != [] {
          var step := SatSub(run[|run| - 1].tsMs, sample.tsMs);
          if !(MIN_STEP_MS <= step <= MAX_STEP_MS) {
            break;
          }
        }
        run := run + [sample];
        start := start - 1;
      }
      assert start == RunStart(samples, horizon);
      if run == [] {
        return None;
      }
      run := seq(|run|, i requires 0 <= i < |run| => run[|run| - 1 - i]);
      assert run == samples[start..];
      var factor := Factor(|run|);
      var kept := StepBy(run, factor);
      return Some(Backfill(kept[0].tsMs, SatMulU32(RING_INTERVAL_MS, factor), kept));
    }
  }

  // ---- What a history is ---------------------------------------------------

  lemma {:induction false} RunSpacing(samples: seq<Sample>, horizon: i64, start: nat, p: nat)
    requires GapFree(samples, horizon, start) && start + p < |samples|
    ensures p * MIN_STEP_MS <= samples[start + p].tsMs - samples[start].tsMs <= p * MAX_STEP_MS
  {
    if p > 0 {
      RunSpacing(samples, horizon, start, p - 1);
      assert Joins(samples, horizon, start + p - 1);
    }
  }

  lemma GapFreeLater(samples: seq<Sample>, horizon: i64, k: nat, l: nat)
    requires GapFree(samples, horizon, k) && k <= l <= |samples|
    ensures GapFree(samples, horizon, l)
  {
  }

  lemma FactorFits(n: nat)
    requires 1 <= n <= RING_CAPACITY
    ensures 1 <= Factor(n) <= 6
    ensures 1 <= DivCeil(n, Factor(n)) <= MAX_HISTORY_SAMPLES
    ensures n - 1 - (DivCeil(n, Factor(n)) - 1) * Factor(n) < Factor(n)
  {
    var f := Factor(n);
    var c := DivCeil(n, f);
    if c > MAX_HISTORY_SAMPLES {
      MulMonotone(MAX_HISTORY_SAMPLES, c - 1, f);
      assert false;
    }
    MulMonotone(c - 1, c, f);
  }

  /** Points of a decimated run are evenly placed in it, and ordered in time. */
  lemma PointsInOrder(samples: seq<Sample>, horizon: i64, start: nat, factor: nat, i: nat, j: nat)
    requires GapFree(samples, horizon, start) && factor >= 1 && i <= j
    requires start + j * factor < |samples|
    ensures 0 <= i * factor <= j * factor
    ensures start + i * factor < |samples|
    ensures (j * factor - i * factor) * MIN_STEP_MS <= samples[start + j * factor].tsMs - samples[start + i * factor].tsMs
            <= (j * factor - i * factor) * MAX_STEP_MS
    ensures i < j ==> samples[start + i * factor].tsMs < samples[start + j * factor].tsMs
  {
    MulMonotone(i, j, factor);
    GapFreeLater(samples, horizon, start, start + i * factor);
    RunSpacing(samples, horizon, start + i * factor, j * factor - i * factor);
  }

  /** Everything a client may rely on in a history: it is the decimation of the longest gap-free
      suffix inside the horizon, it fits the message, its interval is the decimated cadence, its
      points are where that cadence says to within half a ring interval a step, and it reaches to
      within one decimated step of the newest stored sample. */
  ghost predicate WellShaped(samples: seq<Sample>, start: nat, h: History)
    requires start < |samples|
  {
    var factor := Factor(|samples| - start);
    && 1 <= |h.samples| <= MAX_HISTORY_SAMPLES
    && h.intervalMs == RING_INTERVAL_MS * factor
    && h.startTs == h.samples[0].tsMs
    && (forall i :: 0 <= i < |h.samples| ==>
          && start + i * factor < |samples|
          && h.samples[i] == samples[start + i * factor]
          && i * factor * MIN_STEP_MS <= h.samples[i].tsMs - h.startTs <= i * factor * MAX_STEP_MS)
    && (forall i, j :: 0 <= i < j < |h.samples| ==> h.samples[i].tsMs < h.samples[j].tsMs)
    && |samples| - start - 1 - (|h.samples| - 1) * factor < factor
  }

  lemma HistoryShape(samples: seq<Sample>, backfillSeconds: nat, nowMs: i64)
    requires |samples| <= RING_CAPACITY
    ensures HistoryOf(samples, backfillSeconds, nowMs).None? <==>
            backfillSeconds == 0 || samples == [] || samples[|samples| - 1].tsMs < Horizon(backfillSeconds, nowMs)
    ensures HistoryOf(samples, backfillSeconds, nowMs).Some? ==>
              var start := RunStart(samples, Horizon(backfillSeconds, nowMs));
              start < |samples| && WellShaped(samples, start, HistoryOf(samples, backfillSeconds, nowMs).value)
  {
    var horizon := Horizon(backfillSeconds, nowMs);
    RunIsLongest(samples, horizon);
    if HistoryOf(samples, backfillSeconds, nowMs).Some? {
      var start := RunStart(samples, horizon);
      assert GapFree(samples, horizon, start) && start < |samples|;
      FactorFits(|samples| - start);
      RunIsWellShaped(samples, horizon, start);
    }
  }

  /** The decimation of a gap-free run that fits the ring. */
  lemma RunIsWellShaped(samples: seq<Sample>, horizon: i64, start: nat)
    requires start < |samples| && |samples| <= RING_CAPACITY && GapFree(samples, horizon, start)
    ensures var run := samples[start..];
      var factor := Factor(|run|);
      StepBy(run, factor) != []
      && WellShaped(samples, start, Backfill(run[0].tsMs, SatMulU32(RING_INTERVAL_MS, factor), StepBy(run, factor)))
  {
    var run := samples[start..];
    var factor := Factor(|run|);
    var points := StepBy(run, factor);
    FactorFits(|run|);
    hide Factor;
    hide DivCeil;
    hide GapFree;
    assert points[0] == run[0 * factor];
    forall i | 0 <= i < |points|
      ensures start + i * factor < |samples| && points[i] == samples[start + i * factor]
      ensures i * factor * MIN_STEP_MS <= points[i].tsMs - points[0].tsMs <= i * factor * MAX_STEP_MS
    {
      PointsInOrder(samples, horizon, start, factor, 0, i);
    }
    forall i, j | 0 <= i < j < |points| ensures points[i].tsMs < points[j].tsMs {
      PointsInOrder(samples, horizon, start, factor, i, j);
    }
  }
}
