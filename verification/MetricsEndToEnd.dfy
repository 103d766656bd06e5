/** From the sampler's clock to the phone's chart: how wrong a charted time can be. */
module MetricsEndToEnd {
  import opened Wrappers
  import opened SaturatingI64
  import opened MetricsRing
  import opened MetricsEngine
  import opened MetricsWire

  /** The readings that can be stored at all. */
  function Known(readings: seq<Sample>): (r: seq<Sample>)
    ensures forall s <- r :: RatesKnown(s)
  {
    if readings == [] then []
    else Known(readings[..|readings| - 1])
         + (if RatesKnown(readings[|readings| - 1]) then [readings[|readings| - 1]] else [])
  }

  /** The readings with known rates come in order, at most `p` apart; between them anything else may come. */
  ghost predicate Cadence(readings: seq<Sample>, p: int) {
    var known := Known(readings);
    && (forall i :: 0 <= i < |known| ==> known[i].tsMs < I64_MAX)
    && (forall i :: 0 < i < |known| ==> 0 <= known[i].tsMs - known[i - 1].tsMs <= p)
  }

  /** Nothing was stored before, or this next reading to be stored comes after a gap that no run spans: a
      sleep, an outage, or rates that stayed unknown. */
  predicate StartsAfresh(before: Store, first: Sample) {
    before.stored == [] || first.tsMs - before.stored[|before.stored| - 1].tsMs > MAX_STEP_MS
  }

  // ---- Where stored samples fall -------------------------------------------------

  /** How far into its grid cell stored sample `j` was taken, when cell `k` begins at `anchor`. */
  function Offset(stored: seq<Sample>, k: nat, anchor: int, j: nat): int
    requires j < |stored|
  {
    stored[j].tsMs - anchor - (j - k) * RING_INTERVAL_MS
  }

  /** From sample `k` on no cell is skipped: sample `k` is somewhere in its cell, and every later one less than
      `p` after its cell begins. */
  ghost predicate InStep(s: Store, k: nat, anchor: int, p: int) {
    && k < |s.stored| && s.due == Some(Clamp(anchor + (|s.stored| - k) * RING_INTERVAL_MS))
    && 0 <= Offset(s.stored, k, anchor, k) < RING_INTERVAL_MS
    && forall j :: k <= j < |s.stored| ==>
         RatesKnown(s.stored[j]) && (j > k ==> 0 <= Offset(s.stored, k, anchor, j) < p)
  }

  /** The grid point at or before the first stored sample: that sample itself, or counted from the grid so far. */
  function Anchor(before: Store, first: i64): int {
    if before.due.None? then first
    else before.due.value + ((first as int - before.due.value) / RING_INTERVAL_MS) * RING_INTERVAL_MS
  }

  /** A sample is due at most an interval after the last stored one. */
  lemma {:induction false} DueIsNear(readings: seq<Sample>)
    ensures var s := StoreAll(readings);
      && (s.stored == [] <==> s.due.None?)
      && (s.stored != [] ==> s.due.value <= s.stored[|s.stored| - 1].tsMs + RING_INTERVAL_MS)
  {
    if readings != [] {
      DueIsNear(readings[..|readings| - 1]);
    }
  }

  lemma FirstInStep(before: Store, sample: Sample, p: int)
    requires before.stored == [] <==> before.due.None?
    requires before.due.Some? ==> before.due.value <= sample.tsMs
    requires RatesKnown(sample) && sample.tsMs < I64_MAX
    ensures InStep(StoreOne(before, sample), |before.stored|, Anchor(before, sample.tsMs), p)
    ensures sample.tsMs < StoreOne(before, sample).due.value
  {
    if before.due.Some? {
      NextDueIsLeast(before.due.value, sample.tsMs);
    }
  }

  lemma StoreOneInStep(s: Store, k: nat, anchor: int, previous: Sample, sample: Sample, p: int)
    requires InStep(s, k, anchor, p) && 1 <= p <= RING_INTERVAL_MS
    requires previous.tsMs < s.due.value && 0 <= sample.tsMs - previous.tsMs <= p
    requires RatesKnown(sample) && sample.tsMs < I64_MAX
    ensures InStep(StoreOne(s, sample), k, anchor, p) && sample.tsMs < StoreOne(s, sample).due.value
  {
    if IsDue(s.due, sample) {
      var next := StoreOne(s, sample);
      assert forall j :: 0 <= j < |s.stored| ==> Offset(next.stored, k, anchor, j) == Offset(s.stored, k, anchor, j);
    }
  }

  lemma KnownGrows(readings: seq<Sample>, sample: Sample)
    ensures Known(readings + [sample]) == Known(readings) + if RatesKnown(sample) then [sample] else []
  {
    assert (readings + [sample])[..|readings|] == readings;
  }

  lemma {:induction false} CadenceBefore(init: seq<Sample>, sample: Sample, p: int)
    requires Cadence(init + [sample], p)
    ensures Cadence(init, p)
    ensures RatesKnown(sample) ==> sample.tsMs < I64_MAX
    ensures RatesKnown(sample) && Known(init) != [] ==> 0 <= sample.tsMs - Known(init)[|Known(init)| - 1].tsMs <= p
  {
    var known := Known(init + [sample]);
    KnownGrows(init, sample);
    hide Known;
    assert forall i :: 0 <= i < |Known(init)| ==> Known(init)[i] == known[i];
    assert RatesKnown(sample) ==> known[|Known(init)|] == sample;
  }

  lemma LastOff(readings: seq<Sample>) returns (init: seq<Sample>, sample: Sample)
    requires readings != []
    ensures readings == init + [sample]
  {
    init, sample := readings[..|readings| - 1], readings[|readings| - 1];
  }

  /** What the grid has kept of the known readings since the store was `was`. */
  ghost predicate Kept(was: Store, s: Store, known: seq<Sample>, first: Sample, p: int) {
    if known == [] then s == was
    else
      && InStep(s, |was.stored|, Anchor(was, first.tsMs), p) && was.stored + [first] <= s.stored
      && known[|known| - 1].tsMs < s.due.value
  }

  lemma KeepsOne(was: Store, s: Store, known: seq<Sample>, first: Sample, sample: Sample, p: int)
    requires Kept(was, s, known, first, p) && 1 <= p <= RING_INTERVAL_MS
    requires was.stored == [] <==> was.due.None?
    requires was.due.Some? ==> was.due.value <= first.tsMs
    requires if known == [] then sample == first else 0 <= sample.tsMs - known[|known| - 1].tsMs <= p
    requires RatesKnown(sample) && sample.tsMs < I64_MAX
    ensures Kept(was, StoreOne(s, sample), known + [sample], first, p)
  {
    if known == [] {
      FirstInStep(was, sample, p);
    } else {
      StoreOneInStep(s, |was.stored|, Anchor(was, first.tsMs), known[|known| - 1], sample, p);
      hide InStep;
      hide Anchor;
    }
  }

  lemma {:induction false} StepInStep(before: seq<Sample>, init: seq<Sample>, sample: Sample, first: Sample, p: int)
    requires Kept(StoreAll(before), StoreAll(before + init), Known(init), first, p)
    requires StartsAfresh(StoreAll(before), first) && 1 <= p <= RING_INTERVAL_MS
    requires if Known(init) == [] then RatesKnown(sample) ==> sample == first
             else RatesKnown(sample) ==> 0 <= sample.tsMs - Known(init)[|Known(init)| - 1].tsMs <= p
    requires RatesKnown(sample) ==> sample.tsMs < I64_MAX
    ensures Kept(StoreAll(before), StoreAll(before + (init + [sample])), Known(init + [sample]), first, p)
  {
    DueIsNear(before);
    KnownGrows(init, sample);
    StoresOneMore(before, init, sample);
    hide StoreAll;
    hide Known;
    if RatesKnown(sample) {
      hide Kept;
      KeepsOne(StoreAll(before), StoreAll(before + init), Known(init), first, sample, p);
    }
  }

  /** However the earlier readings came, from the first one after the gap every grid cell gets its sample. */
  lemma {:induction false} StoreInStep(before: seq<Sample>, since: seq<Sample>, first: Sample, p: int)
    requires Known(since) != [] ==> Known(since)[0] == first
    requires StartsAfresh(StoreAll(before), first) && Cadence(since, p) && 1 <= p <= RING_INTERVAL_MS
    ensures Kept(StoreAll(before), StoreAll(before + since), Known(since), first, p)
  {
    if since == [] {
      assert before + since == before;
    } else {
      hide StoreAll;
      hide Cadence;
      hide Known;
      hide StartsAfresh;
      hide Kept;
      var init, sample := LastOff(since);
      CadenceBefore(init, sample, p);
      KnownGrows(init, sample);
      assert Known(init) != [] ==> Known(since)[0] == Known(init)[0];
      StoreInStep(before, init, first, p);
      StepInStep(before, init, sample, first, p);
    }
  }

  lemma StoresOneMore(before: seq<Sample>, since: seq<Sample>, sample: Sample)
    ensures StoreAll(before + (since + [sample])) == StoreOne(StoreAll(before + since), sample)
  {
    var all := before + (since + [sample]);
    assert all[..|all| - 1] == before + since;
  }

  // ---- What the phone charts -----------------------------------------------------

  /** What the ring holds after the readings: the newest of what was stored. */
  function RingAfter(readings: seq<Sample>): (r: seq<Sample>)
    ensures |r| <= RING_CAPACITY
  {
    Newest(StoreAll(readings).stored, RING_CAPACITY)
  }

  /** How late a sample can be charted: the first one after a gap sits anywhere in its cell, but a run starts
      with it only if the next sample is no closer than a run allows. */
  function Late(before: Store, p: int): int {
    if before.stored == [] then p else MIN_STEP_MS + Min(p, MIN_STEP_MS)
  }

  /** Point `n` of the history, charted at `startTs + n * intervalMs`, is less than `p` early and less than
      `late` late. */
  ghost predicate Timely(h: History, n: nat, p: int, late: int)
    requires n < |h.samples|
  {
    RatesKnown(h.samples[n]) && -p < h.startTs as int + n * h.intervalMs - h.samples[n].tsMs < late
  }

  /** The grid's clock between two stored samples a run may hold is off by the difference of their offsets. */
  lemma GridError(s: Store, k: nat, anchor: int, p: int, late: int, a: nat, q: nat)
    requires InStep(s, k, anchor, p) && k <= a && a + q < |s.stored| && 1 <= p <= late
    requires a == k ==> s.stored[k].tsMs == anchor || late == MIN_STEP_MS + Min(p, MIN_STEP_MS)
    requires a + 1 < |s.stored| ==> s.stored[a + 1].tsMs - s.stored[a].tsMs >= MIN_STEP_MS
    ensures -p < s.stored[a].tsMs + q * RING_INTERVAL_MS - s.stored[a + q].tsMs < late
    ensures RatesKnown(s.stored[a + q])
  {
    if q > 0 {
      assert 0 <= Offset(s.stored, k, anchor, a + q) < p;
      assert a == k ==> Offset(s.stored, k, anchor, k + 1) < p;
      assert 0 <= Offset(s.stored, k, anchor, a) && (a > k ==> Offset(s.stored, k, anchor, a) < p);
    }
  }

  /** A run starts no earlier than the first sample after a gap. */
  lemma RunIsAfterTheGap(ring: seq<Sample>, horizon: i64, start: nat, i: nat)
    requires GapFree(ring, horizon, start) && 0 < i < |ring| && ring[i].tsMs - ring[i - 1].tsMs > MAX_STEP_MS
    ensures i <= start
  {
    assert !Joins(ring, horizon, i - 1);
  }

  lemma Regroup(n: nat, a: nat, b: nat)
    ensures n * (a * b) == (n * b) * a
  {
  }

  /** A point's place in the run is what its charted time counts in ring intervals. */
  lemma PointPlace(ring: seq<Sample>, start: nat, h: History, n: nat) returns (q: nat)
    requires start < |ring| && WellShaped(ring, start, h) && n < |h.samples|
    ensures start + q < |ring| && h.samples[n] == ring[start + q] && h.startTs == ring[start].tsMs
    ensures n * h.intervalMs == q * RING_INTERVAL_MS
  {
    var factor := Factor(|ring| - start);
    q := n * factor;
    assert h.startTs == ring[start].tsMs by {
      assert h.samples[0] == ring[start + 0 * factor];
    }
    Regroup(n, RING_INTERVAL_MS, factor);
  }

  /** Where a run can start, seen from the stored samples. */
  lemma RunInStored(s: Store, k: nat, start: nat, horizon: i64, q: nat) returns (a: nat)
    requires k < |s.stored| && (k > 0 ==> s.stored[k].tsMs - s.stored[k - 1].tsMs > MAX_STEP_MS)
    requires start + q < |Newest(s.stored, RING_CAPACITY)| && GapFree(Newest(s.stored, RING_CAPACITY), horizon, start)
    ensures k <= a && a + q < |s.stored|
    ensures a + 1 < |s.stored| ==> s.stored[a + 1].tsMs - s.stored[a].tsMs >= MIN_STEP_MS
    ensures Newest(s.stored, RING_CAPACITY)[start] == s.stored[a]
    ensures Newest(s.stored, RING_CAPACITY)[start + q] == s.stored[a + q]
  {
    var ring := Newest(s.stored, RING_CAPACITY);
    a := |s.stored| - |ring| + start;
    var evicted := |s.stored| - |ring|;
    assert Joins(ring, horizon, start);
    if k > evicted {
      assert s.stored[k] == ring[k - evicted] && s.stored[k - 1] == ring[k - evicted - 1];
      RunIsAfterTheGap(ring, horizon, start, k - evicted);
    }
  }

  lemma PointError(s: Store, k: nat, anchor: int, p: int, late: int, start: nat, horizon: i64, h: History, n: nat)
    requires InStep(s, k, anchor, p) && 1 <= p <= late
    requires s.stored[k].tsMs == anchor || late == MIN_STEP_MS + Min(p, MIN_STEP_MS)
    requires k > 0 ==> s.stored[k].tsMs - s.stored[k - 1].tsMs > MAX_STEP_MS
    requires start < |Newest(s.stored, RING_CAPACITY)| && GapFree(Newest(s.stored, RING_CAPACITY), horizon, start)
    requires WellShaped(Newest(s.stored, RING_CAPACITY), start, h) && n < |h.samples|
    ensures Timely(h, n, p, late)
  {
    assert k < |s.stored|;
    hide InStep;
    hide GapFree;
    hide WellShaped;
    hide Newest;
    hide Offset;
    var q := PointPlace(Newest(s.stored, RING_CAPACITY), start, h, n);
    var a := RunInStored(s, k, start, horizon, q);
    GridError(s, k, anchor, p, late, a, q);
  }

  lemma StoredAfresh(before: seq<Sample>, since: seq<Sample>, p: int) returns (k: nat, anchor: int)
    requires Known(since) != [] && StartsAfresh(StoreAll(before), Known(since)[0])
    requires Cadence(since, p) && 1 <= p <= RING_INTERVAL_MS
    ensures var s := StoreAll(before + since);
      && InStep(s, k, anchor, p) && k < |s.stored|
      && (s.stored[k].tsMs == anchor || Late(StoreAll(before), p) == MIN_STEP_MS + Min(p, MIN_STEP_MS))
      && (k > 0 ==> s.stored[k].tsMs - s.stored[k - 1].tsMs > MAX_STEP_MS)
  {
    var was, first := StoreAll(before), Known(since)[0];
    StoreInStep(before, since, first, p);
    DueIsNear(before);
    k, anchor := |was.stored|, Anchor(was, first.tsMs);
    hide StoreAll;
    hide Cadence;
    var s := StoreAll(before + since);
    assert s.stored[k] == (was.stored + [first])[k];
    assert k > 0 ==> s.stored[k - 1] == (was.stored + [first])[k - 1];
  }

  lemma {:induction false} HistoryIsTimely(before: seq<Sample>, since: seq<Sample>, p: int, backfillSeconds: nat, nowMs: i64, n: nat)
    requires Known(since) != [] && StartsAfresh(StoreAll(before), Known(since)[0])
    requires Cadence(since, p) && 1 <= p <= RING_INTERVAL_MS
    requires HistoryOf(RingAfter(before + since), backfillSeconds, nowMs).Some?
    requires n < |HistoryOf(RingAfter(before + since), backfillSeconds, nowMs).value.samples|
    ensures Timely(HistoryOf(RingAfter(before + since), backfillSeconds, nowMs).value, n, p, Late(StoreAll(before), p))
  {
    hide HistoryOf;
    hide StoreAll;
    hide InStep;
    hide Cadence;
    hide GapFree;
    hide WellShaped;
    hide StartsAfresh;
    hide RunStart;
    var ring, s := RingAfter(before + since), StoreAll(before + since);
    var horizon := Horizon(backfillSeconds, nowMs);
    var k, anchor := StoredAfresh(before, since, p);
    HistoryShape(ring, backfillSeconds, nowMs);
    RunIsLongest(ring, horizon);
    PointError(s, k, anchor, p, Late(StoreAll(before), p), RunStart(ring, horizon), horizon,
               HistoryOf(ring, backfillSeconds, nowMs).value, n);
  }

  /** A charted point shows a sample: its values exactly, its time to less than `p` ms one way and `late` the
      other. */
  ghost predicate IsChartOf(point: MetricSample, sample: Sample, p: int, late: int) {
    && -p < point.atMs - sample.tsMs < late
    && point.cpuPercent == sample.cpuPercent && point.memUsedBytes == sample.memUsedBytes
    && point.rx == sample.rx && point.tx == sample.tx
  }

  /** The phone charts a timely history whole. */
  lemma ChartsWhole(body: HistoryBody, sub: nat, h: History, memTotalBytes: Option<nat>, p: int, late: int)
    requires IsBodyOf(body, sub, Some(h), memTotalBytes) && h.intervalMs > 0
    requires forall n :: 0 <= n < |h.samples| ==> Timely(h, n, p, late)
    ensures |PhonePoints(body)| == |h.samples|
    ensures forall n :: 0 <= n < |h.samples| ==> IsChartOf(PhonePoints(body)[n], h.samples[n], p, late)
  {
    forall n | 0 <= n < |h.samples| ensures RatesKnown(h.samples[n]) {
      assert Timely(h, n, p, late);
    }
    KnownPrefixIs(h.samples, |h.samples|);
    forall n | 0 <= n < |h.samples| ensures IsChartOf(PhonePoints(body)[n], h.samples[n], p, late) {
      assert Timely(h, n, p, late);
    }
  }

  /** The bound. From the start of the service, or from the first sample after a gap, let the readings with known
      rates come in order, at most `p <= 30000` ms apart. Then the body is never truncated: the phone shows one
      point for each history sample, with that sample's values, at a time less than `p` ms early, and less than
      `p` ms late from the start or 15 s plus the lesser of `p` and 15 s late after a gap. */
  lemma {:induction false} ChartIsTimely(before: seq<Sample>, since: seq<Sample>, p: int, backfillSeconds: nat, nowMs: i64,
                      sub: nat, memTotalBytes: Option<nat>, body: HistoryBody)
    requires Known(since) != [] && StartsAfresh(StoreAll(before), Known(since)[0])
    requires Cadence(since, p) && 1 <= p <= RING_INTERVAL_MS
    requires IsBodyOf(body, sub, HistoryOf(RingAfter(before + since), backfillSeconds, nowMs), memTotalBytes)
    ensures match HistoryOf(RingAfter(before + since), backfillSeconds, nowMs)
            case None => PhonePoints(body) == []
            case Some(h) =>
              && |PhonePoints(body)| == |h.samples|
              && forall n :: 0 <= n < |h.samples| ==>
                   IsChartOf(PhonePoints(body)[n], h.samples[n], p, Late(StoreAll(before), p))
  {
    hide Cadence;
    hide StoreAll;
    hide Known;
    hide StartsAfresh;
    hide Late;
    hide Timely;
    hide IsChartOf;
    var ring, late := RingAfter(before + since), Late(StoreAll(before), p);
    HistoryShape(ring, backfillSeconds, nowMs);
    hide HistoryOf;
    hide RunStart;
    if HistoryOf(ring, backfillSeconds, nowMs).Some? {
      var h := HistoryOf(ring, backfillSeconds, nowMs).value;
      assert h.intervalMs > 0;
      forall n | 0 <= n < |h.samples| ensures Timely(h, n, p, late) {
        HistoryIsTimely(before, since, p, backfillSeconds, nowMs, n);
      }
      ChartsWhole(body, sub, h, memTotalBytes, p, late);
    }
  }

  function At(tsMs: i64): Sample {
    Sample(tsMs, 0.0, 0, 0, [], Some(0), Some(0))
  }

  lemma {:induction false} AllKnown(readings: seq<Sample>)
    requires forall i :: 0 <= i < |readings| ==> RatesKnown(readings[i])
    ensures Known(readings) == readings
  {
    if readings != [] {
      AllKnown(readings[..|readings| - 1]);
    }
  }

  predicate Holds(readings: seq<Sample>, stored: seq<Sample>, due: i64) {
    StoreAll(readings) == Store(stored, Some(due))
  }

  lemma FirstIsStored()
    ensures Holds([At(0)], [At(0)], 30_000)
  {
    assert [At(0)][..0] == [];
    assert StoreAll([]) == Store([], None);
    assert [] + [At(0)] == [At(0)];
  }

  /** A reading on or after the due time is stored, and the next is due at the next grid point. */
  lemma ThenStores(readings: seq<Sample>, stored: seq<Sample>, due: i64, ts: i64, next: i64,
                   readings': seq<Sample>, stored': seq<Sample>)
    requires Holds(readings, stored, due) && readings' == readings + [At(ts)] && stored' == stored + [At(ts)]
    requires 0 <= due <= ts < next <= 1_000_000
    requires due % RING_INTERVAL_MS == 0 && next % RING_INTERVAL_MS == 0 && next - RING_INTERVAL_MS <= ts
    ensures Holds(readings', stored', next)
  {
    assert readings'[..|readings|] == readings;
    assert NextDue(due, ts) == next;
  }

  lemma ThenSkips(readings: seq<Sample>, stored: seq<Sample>, due: i64, ts: i64, readings': seq<Sample>)
    requires Holds(readings, stored, due) && readings' == readings + [At(ts)] && ts < due
    ensures Holds(readings', stored, due)
  {
    assert readings'[..|readings|] == readings;
  }

  lemma OneToOne(run: seq<Sample>)
    requires 1 <= |run| <= MAX_HISTORY_SAMPLES
    ensures Factor(|run|) == 1 && StepBy(run, 1) == run
  {
    forall i | 0 <= i < |StepBy(run, 1)| ensures StepBy(run, 1)[i] == run[i] {
      assert StepBy(run, 1)[i] == run[i * 1];
    }
  }

  lemma StartsAt(ring: seq<Sample>, start: nat, horizon: i64)
    requires start < |ring| && GapFree(ring, horizon, start)
    requires start > 0 ==> ring[start].tsMs - ring[start - 1].tsMs > MAX_STEP_MS
    ensures RunStart(ring, horizon) == start
  {
    RunIsLongest(ring, horizon);
    hide RunStart;
    if start > 0 {
      RunIsAfterTheGap(ring, horizon, RunStart(ring, horizon), start);
    }
  }

  /** A short run that is gap-free, and is not from one sample earlier, is the history. */
  lemma ShortRun(ring: seq<Sample>, start: nat, backfillSeconds: nat, nowMs: i64)
    requires start < |ring| <= start + MAX_HISTORY_SAMPLES && backfillSeconds > 0
    requires GapFree(ring, Horizon(backfillSeconds, nowMs), start)
    requires start > 0 ==> ring[start].tsMs - ring[start - 1].tsMs > MAX_STEP_MS
    ensures HistoryOf(ring, backfillSeconds, nowMs) == Some(Backfill(ring[start].tsMs, RING_INTERVAL_MS, ring[start..]))
  {
    hide GapFree;
    hide RunStart;
    hide Horizon;
    hide StepBy;
    hide Factor;
    StartsAt(ring, start, Horizon(backfillSeconds, nowMs));
    OneToOne(ring[start..]);
  }

  /** A history of five stored samples puts the last of them at 120 s. */
  lemma LastOfFive(readings: seq<Sample>, ring: seq<Sample>, due: i64, p: int)
    requires Holds(readings, ring, due) && |ring| == 5 && ring[0] == At(0)
    requires forall i :: 0 <= i < 4 ==> MIN_STEP_MS <= ring[i + 1].tsMs - ring[i].tsMs <= MAX_STEP_MS
    requires ring[4].tsMs - 120_000 >= p > 0
    ensures var h := HistoryOf(RingAfter(readings), 86_400, 300_000);
      h.Some? && |h.value.samples| == 5 && !Timely(h.value, 4, p, p)
  {
    var horizon := Horizon(86_400, 300_000);
    assert ring[0].tsMs < ring[1].tsMs < ring[2].tsMs < ring[3].tsMs < ring[4].tsMs <= 4 * MAX_STEP_MS;
    forall i | 0 <= i < 5 ensures Joins(ring, horizon, i) {}
    assert RingAfter(readings) == ring;
    ShortRun(ring, 0, 86_400, 300_000);
    assert ring[0..] == ring;
    hide HistoryOf;
    hide RingAfter;
  }

  lemma DriftStored(b: seq<Sample>)
    requires b == [At(0), At(44_999), At(89_998), At(134_997), At(179_996)]
    ensures Holds(b, b, 180_000)
  {
    hide Holds;
    FirstIsStored();
    assert b[..1] == [At(0)];
    ThenStores(b[..1], b[..1], 30_000, 44_999, 60_000, b[..2], b[..2]);
    ThenStores(b[..2], b[..2], 60_000, 89_998, 90_000, b[..3], b[..3]);
    ThenStores(b[..3], b[..3], 90_000, 134_997, 150_000, b[..4], b[..4]);
    ThenStores(b[..4], b[..4], 150_000, 179_996, 180_000, b, b);
  }

  lemma DriftCadence(b: seq<Sample>, p: int)
    requires p >= 44_999 && b == [At(0), At(44_999), At(89_998), At(134_997), At(179_996)]
    ensures Cadence(b, p)
  {
    assert Near(b, p);
    hide Near;
    NearIsCadence(b, p);
  }

  /** At 45 s less a millisecond, drift alone puts the fifth sample a whole minute late. */
  lemma DriftBreaksTheBound(p: int) returns (readings: seq<Sample>)
    requires 44_999 <= p <= 45_000
    ensures Cadence(readings, p)
    ensures var h := HistoryOf(RingAfter(readings), 86_400, 300_000);
      h.Some? && |h.value.samples| == 5 && !Timely(h.value, 4, p, p)
  {
    hide HistoryOf;
    hide Timely;
    hide Holds;
    hide RingAfter;
    hide Cadence;
    readings := [At(0), At(44_999), At(89_998), At(134_997), At(179_996)];
    DriftCadence(readings, p);
    DriftStored(readings);
    LastOfFive(readings, readings, 180_000, p);
  }

  function Straddling(p: int): seq<Sample>
    requires 30_001 <= p <= 44_998
  {
    [At(0), At(20_000), At(45_000), At(45_000 + p), At(89_999), At(120_000), At(140_000), At(120_000 + p)]
  }

  lemma StraddlingCadence(p: int)
    requires 30_001 <= p <= 44_998
    ensures Cadence(Straddling(p), p)
  {
    var r := Straddling(p);
    assert r[1].tsMs == 20_000 && r[2].tsMs == 45_000 && r[4].tsMs == 89_999 && r[5].tsMs == 120_000;
    assert Near(r, p);
    hide Straddling;
    hide Near;
    NearIsCadence(r, p);
  }

  lemma StraddlingStored(p: int, r: seq<Sample>, kept: seq<Sample>)
    requires 30_001 <= p <= 44_998 && r == Straddling(p)
    requires kept == [At(0), At(45_000), At(45_000 + p), At(120_000), At(120_000 + p)]
    ensures Holds(r, kept, 180_000)
  {
    hide Holds;
    FirstIsStored();
    assert r[..1] == [At(0)] && kept[..1] == [At(0)];
    ThenSkips(r[..1], kept[..1], 30_000, 20_000, r[..2]);
    ThenStores(r[..2], kept[..1], 30_000, 45_000, 60_000, r[..3], kept[..2]);
    ThenStores(r[..3], kept[..2], 60_000, 45_000 + p, 90_000, r[..4], kept[..3]);
    ThenSkips(r[..4], kept[..3], 90_000, 89_999, r[..5]);
    ThenStores(r[..5], kept[..3], 90_000, 120_000, 150_000, r[..6], kept[..4]);
    ThenSkips(r[..6], kept[..4], 150_000, 140_000, r[..7]);
    ThenStores(r[..7], kept[..4], 150_000, 120_000 + p, 180_000, r, kept);
  }

  /** Below that, a grid cell can be skipped without a gap that would end the run: two readings straddle the
      cell at 90 s, and every later sample is charted one cell early. */
  lemma SkippedCellBreaksTheBound(p: int) returns (readings: seq<Sample>)
    requires 30_001 <= p <= 44_998
    ensures Cadence(readings, p)
    ensures var h := HistoryOf(RingAfter(readings), 86_400, 300_000);
      h.Some? && |h.value.samples| == 5 && !Timely(h.value, 4, p, p)
  {
    hide HistoryOf;
    hide Timely;
    hide Holds;
    hide RingAfter;
    hide Cadence;
    hide Straddling;
    readings := Straddling(p);
    StraddlingCadence(p);
    var kept := [At(0), At(45_000), At(45_000 + p), At(120_000), At(120_000 + p)];
    StraddlingStored(p, readings, kept);
    LastOfFive(readings, kept, 180_000, p);
  }

  /** The threshold is the ring interval: for every gap from one millisecond above it to the longest step a
      run may take, some readings no further apart have a charted time that is wrong by the whole gap. */
  lemma BoundFailsAboveTheInterval(p: int) returns (readings: seq<Sample>)
    requires RING_INTERVAL_MS < p <= MAX_STEP_MS
    ensures Cadence(readings, p)
    ensures var h := HistoryOf(RingAfter(readings), 86_400, 300_000);
      h.Some? && |h.value.samples| == 5 && !Timely(h.value, 4, p, p)
  {
    if p >= 44_999 {
      readings := DriftBreaksTheBound(p);
    } else {
      readings := SkippedCellBreaksTheBound(p);
    }
  }

  // ---- The bound after a gap is reached ------------------------------------------

  ghost predicate Near(readings: seq<Sample>, p: int) {
    && (forall i :: 0 <= i < |readings| ==> RatesKnown(readings[i]) && readings[i].tsMs <= 900_000)
    && (forall i :: 0 < i < |readings| ==> 0 <= readings[i].tsMs - readings[i - 1].tsMs <= p)
  }

  lemma NearGrows(readings: seq<Sample>, p: int, sample: Sample)
    requires Near(readings, p) && RatesKnown(sample) && sample.tsMs <= 900_000
    requires readings != [] ==> 0 <= sample.tsMs - readings[|readings| - 1].tsMs <= p
    ensures Near(readings + [sample], p)
  {
  }

  lemma NearIsCadence(readings: seq<Sample>, p: int)
    requires Near(readings, p)
    ensures Cadence(readings, p) && Known(readings) == readings
  {
    AllKnown(readings);
    hide Known;
  }

  /** A reading at 0, and then readings at most `p` apart, the latest of them at `last`. */
  ghost predicate Wakes(since: seq<Sample>, p: int, stored: seq<Sample>, due: int, last: int) {
    && since != [] && since[|since| - 1].tsMs == last && Near(since, p)
    && 0 <= due <= 1_000_000 && Holds([At(0)] + since, stored, due)
  }

  lemma WakesTo(since: seq<Sample>, p: int, stored: seq<Sample>, due: int, last: int, ts: int)
    requires Wakes(since, p, stored, due, last) && last <= ts <= last + p && ts <= 900_000
    ensures ts < due ==> Wakes(since + [At(ts)], p, stored, due, ts)
    ensures due <= ts ==> Wakes(since + [At(ts)], p, stored + [At(ts)], NextDue(due, ts), ts)
  {
    StoresOneMore([At(0)], since, At(ts));
    NearGrows(since, p, At(ts));
    hide Near;
    assert due <= ts ==> ts < NextDue(due, ts) <= 1_000_000;
    hide StoreAll;
    hide NextDue;
  }

  /** Readings `p` apart until just before the next sample is due. */
  lemma {:induction false} WaitsUntil(since: seq<Sample>, p: int, stored: seq<Sample>, due: int, last: int, ts: int)
    returns (longer: seq<Sample>)
    requires Wakes(since, p, stored, due, last) && last <= ts < due && p >= 1 && ts <= 900_000
    ensures Wakes(longer, p, stored, due, ts) && |longer| > |since| && longer[..|since|] == since
    decreases ts - last
  {
    hide Wakes;
    var next := Min(ts, last + p);
    WakesTo(since, p, stored, due, last, next);
    longer := since + [At(next)];
    if next < ts {
      longer := WaitsUntil(longer, p, stored, due, next, ts);
    }
  }

  /** The first sample after the gap in its cell as late as a run may start with it, the next as late as the
      readings allow, and the third on the grid. */
  function Woken(p: int): seq<Sample>
    requires 1 <= p <= MIN_STEP_MS
  {
    [At(0), At(104_999 + p), At(119_999 + p), At(150_000)]
  }

  lemma WakesLate(p: int) returns (since: seq<Sample>)
    requires 1 <= p <= MIN_STEP_MS
    ensures Wakes(since, p, Woken(p), 180_000, 150_000) && since[0] == At(104_999 + p)
  {
    var woken := [At(104_999 + p)];
    WakesFirst(p);
    hide Wakes;
    since := WaitsUntil(woken, p, Woken(p)[..2], 120_000, 104_999 + p, 119_999);
    WakesTo(since, p, Woken(p)[..2], 120_000, 119_999, 119_999 + p);
    assert Woken(p)[..2] + [At(119_999 + p)] == Woken(p)[..3];
    assert NextDue(120_000, 119_999 + p) == 150_000;
    since := since + [At(119_999 + p)];
    since := WaitsUntil(since, p, Woken(p)[..3], 150_000, 119_999 + p, 149_999);
    WakesTo(since, p, Woken(p)[..3], 150_000, 149_999, 150_000);
    assert Woken(p)[..3] + [At(150_000)] == Woken(p);
    assert NextDue(150_000, 150_000) == 180_000;
    since := since + [At(150_000)];
  }

  lemma WakesFirst(p: int)
    requires 1 <= p <= MIN_STEP_MS
    ensures Wakes([At(104_999 + p)], p, Woken(p)[..2], 120_000, 104_999 + p)
  {
    var woken := [At(104_999 + p)];
    FirstIsStored();
    ThenStores([At(0)], [At(0)], 30_000, 104_999 + p, 120_000, [At(0)] + woken, [At(0)] + woken);
    assert [At(0)] + woken == Woken(p)[..2];
    hide Holds;
  }

  /** The history of those four samples is the last three, and puts the last of them that late. */
  lemma LateByFifteenSeconds(readings: seq<Sample>, p: int)
    requires 1 <= p <= MIN_STEP_MS && Holds(readings, Woken(p), 180_000)
    ensures HistoryOf(RingAfter(readings), 86_400, 300_000)
         == Some(Backfill(104_999 + p, RING_INTERVAL_MS, Woken(p)[1..]))
  {
    var ring, horizon := Woken(p), Horizon(86_400, 300_000);
    assert RingAfter(readings) == ring;
    forall i | 1 <= i < 4 ensures Joins(ring, horizon, i) {}
    ShortRun(ring, 1, 86_400, 300_000);
  }

  /** For every `p` up to the ring interval there is a gap after which some charted time is late by a
      millisecond less than the bound. */
  lemma GapBoundIsReached(p: int) returns (since: seq<Sample>)
    requires 1 <= p <= RING_INTERVAL_MS
    ensures Cadence(since, p) && Known(since) != [] && StartsAfresh(StoreAll([At(0)]), Known(since)[0])
    ensures var h := HistoryOf(RingAfter([At(0)] + since), 86_400, 300_000);
      && h.Some? && |h.value.samples| == 3
      && h.value.startTs as int + 2 * h.value.intervalMs - h.value.samples[2].tsMs == Late(StoreAll([At(0)]), p) - 1
  {
    var q := Min(p, MIN_STEP_MS);
    since := WakesLate(q);
    NearIsCadence(since, q);
    FirstIsStored();
    LateByFifteenSeconds([At(0)] + since, q);
    hide HistoryOf;
    hide RingAfter;
    hide StoreAll;
  }
}
