/** Metrics bodies as they cross the wire, and the phone's reading of them. */
module MetricsWire {
  import opened Wrappers
  import opened SaturatingI64
  import opened MetricsRing

  datatype TickBody = TickBody(
    sub: nat, ts: i64, cpuPercent: real, memUsedBytes: nat, memTotalBytes: nat,
    diskLabels: seq<string>, diskUsedBytes: seq<nat>, diskTotalBytes: seq<nat>, rx: Option<nat>, tx: Option<nat>)

  datatype HistoryBody = HistoryBody(
    sub: nat, startTs: i64, intervalMs: nat, cpuPercent: seq<real>, memUsedBytes: seq<nat>,
    memTotalBytes: Option<nat>, rx: seq<nat>, tx: seq<nat>)

  /** One point on the phone's charts. */
  datatype MetricSample = MetricSample(
    atMs: int, cpuPercent: real, memUsedBytes: nat, rx: Option<nat>, tx: Option<nat>)

  // ---- Ticks ---------------------------------------------------------------

  method MakeTick(sub: nat, sample: Sample) returns (body: TickBody)
    ensures body.sub == sub && body.ts == sample.tsMs
    ensures body.cpuPercent == sample.cpuPercent && body.memUsedBytes == sample.memUsedBytes
    ensures body.memTotalBytes == sample.memTotalBytes && body.rx == sample.rx && body.tx == sample.tx
    ensures Volumes(body) == sample.disks
  {
    var labels: seq<string>, used: seq<nat>, total: seq<nat> := [], [], [];
    for i := 0 to |sample.disks|
      invariant |labels| == |used| == |total| == i
      invariant forall j :: 0 <= j < i ==> sample.disks[j] == DiskUsage(labels[j], used[j], total[j])
    {
      labels := labels + [sample.disks[i].volume];
      used := used + [sample.disks[i].usedBytes];
      total := total + [sample.disks[i].totalBytes];
    }
    body := TickBody(sub, sample.tsMs, sample.cpuPercent, sample.memUsedBytes, sample.memTotalBytes,
                     labels, used, total, sample.rx, sample.tx);
  }

  /** The phone pairs the parallel arrays back up, never past the shortest of them. */
  function Volumes(body: TickBody): seq<DiskUsage> {
    var count := Min(|body.diskLabels|, Min(|body.diskUsedBytes|, |body.diskTotalBytes|));
    seq(count, i requires 0 <= i < count =>
      DiskUsage(body.diskLabels[i], body.diskUsedBytes[i], body.diskTotalBytes[i]))
  }

  // ---- History -------------------------------------------------------------

  /** How many samples come before the first with an unknown rate. */
  function KnownPrefix(samples: seq<Sample>): (n: nat)
    ensures n <= |samples|
    ensures forall i :: 0 <= i < n ==> samples[i].rx.Some? && samples[i].tx.Some?
    ensures n < |samples| ==> samples[n].rx.None? || samples[n].tx.None?
  {
    if samples == [] || samples[0].rx.None? || samples[0].tx.None? then 0
    else 1 + KnownPrefix(samples[1..])
  }

  /** `body` carries exactly the first `n` samples, one entry of each array a sample. */
  ghost predicate Carries(body: HistoryBody, samples: seq<Sample>, n: nat) {
    && n <= |samples|
    && |body.cpuPercent| == |body.memUsedBytes| == |body.rx| == |body.tx| == n
    && forall i :: 0 <= i < n ==>
         && body.cpuPercent[i] == samples[i].cpuPercent
         && body.memUsedBytes[i] == samples[i].memUsedBytes
         && Some(body.rx[i]) == samples[i].rx
         && Some(body.tx[i]) == samples[i].tx
  }

  /** The body of an answer: explicitly no data, or the history up to its first unknown rate. */
  ghost predicate IsBodyOf(body: HistoryBody, sub: nat, history: Option<History>, memTotalBytes: Option<nat>) {
    match history
    case None => body == HistoryBody(sub, 0, RING_INTERVAL_MS, [], [], memTotalBytes, [], [])
    case Some(h) =>
      && body.sub == sub && body.startTs == h.startTs && body.intervalMs == h.intervalMs
      && Carries(body, h.samples, KnownPrefix(h.samples))
      && body.memTotalBytes == if h.samples == [] then memTotalBytes
                               else Some(h.samples[|h.samples| - 1].memTotalBytes)
  }

  method MakeHistory(sub: nat, history: Option<History>, memTotalBytes: Option<nat>) returns (body: HistoryBody)
    ensures IsBodyOf(body, sub, history, memTotalBytes)
  {
    if history.None? {
      return HistoryBody(sub, 0, RING_INTERVAL_MS, [], [], memTotalBytes, [], []);
    }
    var samples := history.value.samples;
    var cpu: seq<real>, mem: seq<nat>, rx: seq<nat>, tx: seq<nat> := [], [], [], [];
    var i := 0;
    while i < |samples|
      invariant 0 <= i <= |samples|
      invariant |cpu| == |mem| == |rx| == |tx| == i
      invariant forall j :: 0 <= j < i ==>
                  cpu[j] == samples[j].cpuPercent && mem[j] == samples[j].memUsedBytes
                  && Some(rx[j]) == samples[j].rx && Some(tx[j]) == samples[j].tx
    {
      cpu := cpu + [samples[i].cpuPercent];
      mem := mem + [samples[i].memUsedBytes];
      if samples[i].rx.None? || samples[i].tx.None? {
        break;
      }
      rx := rx + [samples[i].rx.value];
      tx := tx + [samples[i].tx.value];
      i := i + 1;
    }
    KnownPrefixIs(samples, i);
    var usable := |rx|;
    cpu := cpu[..usable];
    mem := mem[..usable];
    var total := if samples == [] then memTotalBytes else Some(samples[|samples| - 1].memTotalBytes);
    return HistoryBody(sub, history.value.startTs, history.value.intervalMs, cpu, mem, total, rx, tx);
  }

  lemma {:induction false} KnownPrefixIs(samples: seq<Sample>, n: nat)
    requires n <= |samples|
    requires forall i :: 0 <= i < n ==> samples[i].rx.Some? && samples[i].tx.Some?
    requires n < |samples| ==> samples[n].rx.None? || samples[n].tx.None?
    ensures KnownPrefix(samples) == n
  {
    if n > 0 {
      KnownPrefixIs(samples[1..], n - 1);
    }
  }

  /** Point N of a history sits at `startTs + N * intervalMs`; a zero interval yields nothing. */
  function PhonePoints(body: HistoryBody): (points: seq<MetricSample>)
  {
    if body.intervalMs == 0 then []
    else
      var count := Min(|body.cpuPercent|, |body.memUsedBytes|);
      seq(count, i requires 0 <= i < count =>
        MetricSample(
          body.startTs as int + i * body.intervalMs, body.cpuPercent[i], body.memUsedBytes[i],
          if i < |body.rx| then Some(body.rx[i]) else None,
          if i < |body.tx| then Some(body.tx[i]) else None))
  }
}
