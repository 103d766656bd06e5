/** Delivering samples: to live subscribers, and onto the ring's absolute time grid. */
module MetricsEngine {
  import opened Wrappers
  import opened SaturatingI64
  import opened MetricsRing

  const SUBSCRIBER_QUEUE_DEPTH: nat := 4

  // ---- The grid ------------------------------------------------------------

  /** The least grid point after `ts`, counting in ring intervals from `due`, or the largest `i64`. */
  function NextDue(due: i64, ts: i64): i64 {
    if ts < due then due
    else Clamp(due as int + ((ts as int - due as int) / RING_INTERVAL_MS + 1) * RING_INTERVAL_MS)
  }

  /** What "the least grid point after `ts`" means: after it, on the grid, and none between. */
  lemma NextDueIsLeast(due: i64, ts: i64)
    requires ts < I64_MAX
    ensures NextDue(due, ts) > ts
    ensures NextDue(due, ts) == I64_MAX || (NextDue(due, ts) - due) % RING_INTERVAL_MS == 0
    ensures due <= ts ==> NextDue(due, ts) - RING_INTERVAL_MS <= ts
  {
  }

  /** The catch-up loop. It is entered only below the largest `i64`: at that value it cannot end. */
  method CatchUp(due: i64, ts: i64) returns (next: i64)
    requires ts < I64_MAX
    ensures next == NextDue(due, ts)
  {
    next := due;
    while next <= ts
      invariant NextDue(next, ts) == NextDue(due, ts)
      decreases ts - next
    {
      next := SatAdd(next, RING_INTERVAL_MS);
    }
  }

  /** `n` turns of the loop's body. */
  function Turns(due: i64, n: nat): i64 {
    if n == 0 then due else SatAdd(Turns(due, n - 1), RING_INTERVAL_MS)
  }

  lemma {:induction false} TurnsClimb(due: i64, n: nat)
    ensures Turns(due, n) == Clamp(due as int + n * RING_INTERVAL_MS)
  {
    if n > 0 {
      TurnsClimb(due, n - 1);
    }
  }

  /** The loop ends for exactly the timestamps below the largest `i64`. */
  lemma CatchUpEndsBelowMax(due: i64, ts: i64)
    ensures (exists n: nat :: Turns(due, n) > ts) <==> ts < I64_MAX
  {
    if ts < I64_MAX {
      var n: nat := if ts < due then 0 else (ts as int - due as int) / RING_INTERVAL_MS + 1;
      TurnsClimb(due, n);
      assert Turns(due, n) > ts;
    }
  }

  // ---- Storing -------------------------------------------------------------

  predicate RatesKnown(sample: Sample) {
    sample.rx.Some? && sample.tx.Some?
  }

  /** Everything ever stored, in order, and when the next sample is due. */
  datatype Store = Store(stored: seq<Sample>, due: Option<i64>)

  predicate IsDue(due: Option<i64>, sample: Sample) {
    RatesKnown(sample) && (due.None? || due.value <= sample.tsMs)
  }

  function DueAfter(due: Option<i64>, sample: Sample): Option<i64> {
    if !IsDue(due, sample) then due
    else if due.None? then Some(SatAdd(sample.tsMs, RING_INTERVAL_MS))
    else Some(NextDue(due.value, sample.tsMs))
  }

  function StoreOne(s: Store, sample: Sample): Store {
    Store(if IsDue(s.due, sample) then s.stored + [sample] else s.stored, DueAfter(s.due, sample))
  }

  function StoreAll(readings: seq<Sample>): Store {
    if readings == [] then Store([], None)
    else StoreOne(StoreAll(readings[..|readings| - 1]), readings[|readings| - 1])
  }

  // ---- The engine ----------------------------------------------------------

  /** A bounded queue to one subscriber, and whether anyone still holds the receiving end. */
  class Channel {
    var queue: seq<Sample>
    var alive: bool

    constructor ()
      ensures queue == [] && alive
    {
      queue, alive := [], true;
    }

    /** Hands the queue over whole and in order, and leaves it empty. */
    method Drain() returns (samples: seq<Sample>)
      modifies this`queue
      ensures samples == old(queue) && queue == []
    {
      samples := queue;
      queue := [];
    }
  }

  /** A full queue drops the new sample, not the oldest one. */
  function Offered(queue: seq<Sample>, sample: Sample): seq<Sample> {
    if |queue| < SUBSCRIBER_QUEUE_DEPTH then queue + [sample] else queue
  }

  class Engine {
    var subscribers: seq<Channel>
    var nextRingDue: Option<i64>
    const ring: RingBuffer
    ghost var history: Store

    ghost predicate Valid()
      reads this, ring
    {
      && ring.Valid()
      && nextRingDue == history.due
      && ring.samples == Newest(history.stored, ring.capacity)
      && forall i, j :: 0 <= i < j < |subscribers| ==> subscribers[i] != subscribers[j]
    }

    constructor ()
      ensures Valid() && fresh(ring) && subscribers == [] && history == Store([], None) && ring.capacity == RING_CAPACITY
    {
      subscribers := [];
      nextRingDue := None;
      ring := new RingBuffer.WithCapacity(RING_CAPACITY);
      history := Store([], None);
    }

    method Subscribe() returns (channel: Channel)
      requires Valid()
      modifies this`subscribers
      ensures Valid()
      ensures fresh(channel) && channel.queue == [] && channel.alive
      ensures subscribers == old(subscribers) + [channel]
    {
      channel := new Channel();
      subscribers := subscribers + [channel];
    }

    /** The sample does not send the catch-up loop after the largest `i64`, where it cannot end. */
    predicate Deliverable(sample: Sample)
      reads this
    {
      sample.tsMs < I64_MAX || nextRingDue.None? || !RatesKnown(sample)
    }

    /** Every subscriber still listening is offered the sample, and what is due joins the history. */
    method Deliver(sample: Sample)
      requires Valid() && Deliverable(sample)
      modifies this, ring, subscribers
      ensures Valid()
      ensures history == StoreOne(old(history), sample)
      ensures forall c <- old(subscribers) ::
                c.alive == old(c.alive) && c.queue == if c.alive then Offered(old(c.queue), sample) else old(c.queue)
      ensures forall c: Channel :: c in subscribers <==> c in old(subscribers) && c.alive
    {
      var kept: seq<Channel> := [];
      for i := 0 to |subscribers|
        invariant subscribers == old(subscribers)
        invariant forall c <- subscribers :: c.alive == old(c.alive)
        invariant forall j :: 0 <= j < i ==>
                    subscribers[j].queue == if subscribers[j].alive then Offered(old(subscribers[j].queue), sample)
                                            else old(subscribers[j].queue)
        invariant forall j :: i <= j < |subscribers| ==> subscribers[j].queue == old(subscribers[j].queue)
        invariant forall j, k :: 0 <= j < k < |kept| ==> kept[j] != kept[k]
        invariant forall c: Channel :: c in kept <==> c in subscribers[..i] && c.alive
        invariant ring.samples == old(ring.samples) && nextRingDue == old(nextRingDue) && history == old(history)
      {
        var c := subscribers[i];
        assert subscribers[..i + 1] == subscribers[..i] + [c];
        if c.alive {
          if |c.queue| < SUBSCRIBER_QUEUE_DEPTH {
            c.queue := c.queue + [sample];
          }
          kept := kept + [c];
        }
      }
      assert subscribers[..|subscribers|] == subscribers;
      subscribers := kept;
      StoreSample(sample);
    }

    method StoreSample(sample: Sample)
      requires Valid() && Deliverable(sample)
      modifies this`nextRingDue, this`history, ring
      ensures Valid()
      ensures history == StoreOne(old(history), sample)
    {
      history := StoreOne(history, sample);
      if !RatesKnown(sample) {
        return;
      }
      NewestPush(old(history).stored, ring.capacity, sample);
      match nextRingDue {
        case None =>
          ring.Push(sample);
          nextRingDue := Some(SatAdd(sample.tsMs, RING_INTERVAL_MS));
        case Some(due) =>
          if due <= sample.tsMs {
            ring.Push(sample);
            var next := CatchUp(due, sample.tsMs);
            nextRingDue := Some(next);
          }
      }
    }
  }

  /** The newest `capacity` of what was stored. */
  function Newest(stored: seq<Sample>, capacity: nat): seq<Sample> {
    if |stored| <= capacity then stored else stored[|stored| - capacity..]
  }

  lemma NewestPush(stored: seq<Sample>, capacity: nat, sample: Sample)
    requires capacity >= 1
    ensures Pushed(Newest(stored, capacity), capacity, sample) == Newest(stored + [sample], capacity)
  {
  }

  // ---- What the grid guarantees --------------------------------------------

  /** The grid cell of a time, counted from the first stored sample. */
  function Cell(first: i64, ts: i64): int {
    (ts as int - first as int) / RING_INTERVAL_MS
  }

  ghost predicate OnGrid(s: Store) {
    && (s.stored == [] <==> s.due.None?)
    && (s.stored != [] ==>
          var first, last, due := s.stored[0].tsMs, s.stored[|s.stored| - 1].tsMs, s.due.value;
          && last < due
          && (due == I64_MAX || (due - first) % RING_INTERVAL_MS == 0))
    && (forall i :: 0 <= i < |s.stored| ==> s.stored[0].tsMs <= s.stored[i].tsMs < I64_MAX)
    && (forall i, j :: 0 <= i < j < |s.stored| ==>
          && s.stored[i].tsMs < s.stored[j].tsMs
          && Cell(s.stored[0].tsMs, s.stored[i].tsMs) < Cell(s.stored[0].tsMs, s.stored[j].tsMs))
  }

  lemma CellsSeparate(first: i64, before: i64, due: i64, after: i64)
    requires before < due <= after && (due - first) % RING_INTERVAL_MS == 0
    ensures Cell(first, before) < Cell(first, after)
  {
  }

  lemma StoreOneKeepsGrid(s: Store, sample: Sample)
    requires OnGrid(s) && sample.tsMs < I64_MAX
    ensures OnGrid(StoreOne(s, sample))
  {
    if IsDue(s.due, sample) && s.due.Some? {
      var first, last, due := s.stored[0].tsMs, s.stored[|s.stored| - 1].tsMs, s.due.value;
      NextDueOnGrid(first, due, sample.tsMs);
      CellsSeparate(first, last, due, sample.tsMs);
      hide NextDue;
      hide Cell;
      assert forall i :: 0 <= i < |s.stored| ==>
               s.stored[i].tsMs < sample.tsMs && Cell(first, s.stored[i].tsMs) < Cell(first, sample.tsMs);
    }
  }

  lemma NextDueOnGrid(first: i64, due: i64, ts: i64)
    requires ts < I64_MAX && (due == I64_MAX || (due - first) % RING_INTERVAL_MS == 0)
    ensures NextDue(due, ts) > ts
    ensures NextDue(due, ts) == I64_MAX || (NextDue(due, ts) - first) % RING_INTERVAL_MS == 0
  {
    NextDueIsLeast(due, ts);
  }

  /** For any sequence of samples, even with the clock going backwards, stored times strictly increase
      and no two stored samples share a cell of the 30 s grid. */
  lemma {:induction false} GridStorage(readings: seq<Sample>)
    requires forall r <- readings :: r.tsMs < I64_MAX
    ensures OnGrid(StoreAll(readings))
  {
    if readings != [] {
      GridStorage(readings[..|readings| - 1]);
      StoreOneKeepsGrid(StoreAll(readings[..|readings| - 1]), readings[|readings| - 1]);
    }
  }
}
