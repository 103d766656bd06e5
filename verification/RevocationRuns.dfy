/** Revocations over whole histories of the host: replays, crashes, and other processes' writes. */
module RevocationRuns {
  import opened Wrappers
  import opened SaturatingI64
  import opened Identity
  import opened HostState
  import opened Revocation

  // ---- The transition system -----------------------------------------------

  /** A revocation that passed verification at `nowMs` and takes the write lock. */
  datatype Request = Request(body: Body, peer: PinnedPeer, nowMs: i64)

  /** The one holder of the write lock, and the file it has in memory. */
  datatype Holder =
    | Nobody
    | Loaded(request: Request, file: StateFile)
    | Recording(request: Request, file: StateFile)

  /** The disk, the lock, and the history of nonces recorded and pins removed on their strength. */
  datatype Host = Host(disk: StateFile, holder: Holder, accepted: seq<(Bytes, i64)>, revoked: seq<(Bytes, i64)>)

  /** Each load and each save is one step, so a crash can fall between any two. */
  datatype Step =
    | Begin(request: Request)
    | RecordNonce
    | RemovePin
    | FailSave
    | Crash
    | OthersRepin(peers: seq<PairedPeer>)
    | StaleSave(file: StateFile)

  predicate Enabled(h: Host, step: Step) {
    match step
    case Begin(request) =>
      && h.holder.Nobody?
      && |request.body.nonce| == REVOKE_NONCE_LEN && Fresh(request.body.issuedAtMs, request.nowMs)
    case RecordNonce => h.holder.Loaded?
    case RemovePin => h.holder.Recording?
    case FailSave => !h.holder.Nobody?
    case _ => true
  }

  function Key(request: Request): (Bytes, i64) {
    (request.body.nonce, request.body.issuedAtMs)
  }

  function After(crypto: Crypto, h: Host, step: Step): Host
    requires Enabled(h, step)
  {
    match step
    case Begin(request) => h.(holder := Loaded(request, h.disk))
    case RecordNonce =>
      var Loaded(request, file) := h.holder;
      if Seen(file.consumed, request.body.nonce) then h.(holder := Nobody)
      else
        var recorded := NonceSaved(file, request.body, request.nowMs);
        Host(recorded, Recording(request, recorded), h.accepted + [Key(request)], h.revoked)
    case RemovePin =>
      var Recording(request, file) := h.holder;
      Host(PinRemoved(crypto, file, request.peer), Nobody, h.accepted, h.revoked + [Key(request)])
    case FailSave => h.(holder := Nobody)
    case Crash => h.(holder := Nobody)
    // Another process pins and unpins by an atomic load, change and save of its own.
    case OthersRepin(peers) => h.(disk := h.disk.(peers := peers))
    // Another process writes back a whole file it loaded some time ago.
    case StaleSave(file) => h.(disk := file)
  }

  datatype Run = Run(hosts: seq<Host>, steps: seq<Step>) {
    ghost predicate Valid(crypto: Crypto) {
      && |hosts| == |steps| + 1
      && hosts[0].holder.Nobody? && hosts[0].accepted == [] && hosts[0].revoked == []
      && forall i :: 0 <= i < |steps| ==> Enabled(hosts[i], steps[i]) && hosts[i + 1] == After(crypto, hosts[i], steps[i])
    }

    /** The clock read for each request does not go back in the order the lock is taken. */
    ghost predicate ClocksInLockOrder() {
      forall i, j :: 0 <= i < j < |steps| && steps[i].Begin? && steps[j].Begin? ==>
                       steps[i].request.nowMs <= steps[j].request.nowMs
    }

    ghost predicate NoStaleSave() {
      forall i :: 0 <= i < |steps| ==> !steps[i].StaleSave?
    }
  }

  // ---- What every step keeps -----------------------------------------------

  /** Protected against replay from `clock` on: recorded on disk, or stale for ever. */
  predicate Spent(disk: StateFile, clock: i64, key: (Bytes, i64)) {
    || ConsumedRevocation(key.0, key.1) in disk.consumed
    || SatSub(clock, key.1) > REVOKE_CLOCK_WINDOW_MS
  }

  ghost predicate Safe(h: Host, clock: i64) {
    && (forall key <- h.accepted :: Spent(h.disk, clock, key))
    && (forall a, b :: 0 <= a < b < |h.accepted| ==> h.accepted[a] != h.accepted[b])
    && (forall key <- h.revoked :: key in h.accepted)
    && (!h.holder.Nobody? ==> h.holder.file.consumed == h.disk.consumed && h.holder.request.nowMs == clock
                              && Fresh(h.holder.request.body.issuedAtMs, clock))
    && (h.holder.Recording? ==> Key(h.holder.request) in h.accepted
                                && Seen(h.disk.consumed, h.holder.request.body.nonce))
  }

  function ClockAfter(clock: i64, step: Step): i64 {
    if step.Begin? then step.request.nowMs else clock
  }

  /** A nonce that is pruned has become stale, so pruning protects what recording did. */
  lemma RecordingKeepsSpent(file: StateFile, body: Body, nowMs: i64, key: (Bytes, i64))
    requires Spent(file, nowMs, key)
    ensures Spent(NonceSaved(file, body, nowMs), nowMs, key)
  {
    var entry := ConsumedRevocation(key.0, key.1);
    if entry in file.consumed && Retained(nowMs, REVOKE_CLOCK_WINDOW_MS, entry) {
      assert entry in Keep(file.consumed, seen => Retained(nowMs, REVOKE_CLOCK_WINDOW_MS, seen));
    }
  }

  /** What is spent cannot pass both the freshness check and the nonce check. */
  lemma SpentIsRefused(disk: StateFile, request: Request)
    requires Spent(disk, request.nowMs, Key(request)) && Fresh(request.body.issuedAtMs, request.nowMs)
    ensures Seen(disk.consumed, request.body.nonce)
  {
    FreshIsExact(request.body.issuedAtMs, request.nowMs);
  }

  lemma StepKeepsSafe(crypto: Crypto, h: Host, clock: i64, step: Step)
    requires Safe(h, clock) && Enabled(h, step) && !step.StaleSave? && clock <= ClockAfter(clock, step)
    ensures Safe(After(crypto, h, step), ClockAfter(clock, step))
  {
    if step.RecordNonce? {
      var Loaded(request, file) := h.holder;
      if !Seen(file.consumed, request.body.nonce) {
        if Key(request) in h.accepted {
          SpentIsRefused(h.disk, request);
        }
        var recorded := NonceSaved(file, request.body, clock);
        forall key | key in h.accepted ensures Spent(recorded, clock, key) {
          RecordingKeepsSpent(file, request.body, clock, key);
        }
        var entry := ConsumedRevocation(request.body.nonce, request.body.issuedAtMs);
        assert recorded.consumed[|recorded.consumed| - 1] == entry;
      }
    }
  }

  /** The clock as of state `i`: the last one read by a lock holder. */
  function ClockAt(steps: seq<Step>, i: nat): i64
    requires i <= |steps|
  {
    if i == 0 then I64_MIN else ClockAfter(ClockAt(steps, i - 1), steps[i - 1])
  }

  lemma {:induction false} ClockIsMonotone(run: Run, i: nat, j: nat)
    requires run.ClocksInLockOrder() && i <= j < |run.steps| && run.steps[j].Begin?
    ensures ClockAt(run.steps, i) <= run.steps[j].request.nowMs
  {
    if i > 0 {
      ClockIsMonotone(run, i - 1, j);
    }
  }

  lemma {:induction false} AlwaysSafe(crypto: Crypto, run: Run, i: nat)
    requires run.Valid(crypto) && run.ClocksInLockOrder() && run.NoStaleSave() && i < |run.hosts|
    ensures Safe(run.hosts[i], ClockAt(run.steps, i))
  {
    if i > 0 {
      AlwaysSafe(crypto, run, i - 1);
      if run.steps[i - 1].Begin? {
        ClockIsMonotone(run, i - 1, i - 1);
      }
      StepKeepsSafe(crypto, run.hosts[i - 1], ClockAt(run.steps, i - 1), run.steps[i - 1]);
    }
  }

  // ---- Single use ----------------------------------------------------------

  /** Over every run, with crashes at any point and other processes pinning and unpinning, no
      revocation body is accepted twice, although old nonces are pruned. */
  lemma SingleUse(crypto: Crypto, run: Run, i: nat)
    requires run.Valid(crypto) && run.ClocksInLockOrder() && run.NoStaleSave() && i < |run.hosts|
    ensures forall a, b :: 0 <= a < b < |run.hosts[i].accepted| ==> run.hosts[i].accepted[a] != run.hosts[i].accepted[b]
  {
    AlwaysSafe(crypto, run, i);
  }

  /** No crash point leaves a pin removed on the strength of a nonce that was not recorded: the nonce
      is on disk when the pin goes, and from then on the body stays spent. */
  lemma {:induction false} NonceBeforePin(crypto: Crypto, run: Run, i: nat)
    requires run.Valid(crypto) && run.ClocksInLockOrder() && run.NoStaleSave() && i < |run.steps|
    ensures run.steps[i] == RemovePin ==>
              && Seen(run.hosts[i].disk.consumed, run.hosts[i].holder.request.body.nonce)
              && Seen(run.hosts[i + 1].disk.consumed, run.hosts[i].holder.request.body.nonce)
    ensures forall key <- run.hosts[i].revoked :: Spent(run.hosts[i].disk, ClockAt(run.steps, i), key)
  {
    AlwaysSafe(crypto, run, i);
  }

  // ---- Why the two hypotheses are needed -----------------------------------

  function Last(run: Run): Host
    requires |run.hosts| > 0
  {
    run.hosts[|run.hosts| - 1]
  }

  function Extend(crypto: Crypto, run: Run, step: Step): Run
    requires |run.hosts| > 0 && Enabled(Last(run), step)
  {
    Run(run.hosts + [After(crypto, Last(run), step)], run.steps + [step])
  }

  lemma ExtendValid(crypto: Crypto, run: Run, step: Step) returns (longer: Run)
    requires run.Valid(crypto) && Enabled(Last(run), step)
    ensures longer == Extend(crypto, run, step) && longer.Valid(crypto)
    ensures Last(longer) == After(crypto, Last(run), step) && longer.steps == run.steps + [step]
  {
    hide After;
    hide Enabled;
    longer := Extend(crypto, run, step);
  }

  /** One revocation that records its nonce and then loses its process. */
  lemma {:induction false} Round(crypto: Crypto, run: Run, request: Request) returns (longer: Run)
    requires run.Valid(crypto) && Enabled(Last(run), Begin(request))
    requires !Seen(Last(run).disk.consumed, request.body.nonce)
    ensures longer.Valid(crypto)
    ensures longer.steps == run.steps + [Begin(request), RecordNonce, Crash]
    ensures Last(longer) == Host(NonceSaved(Last(run).disk, request.body, request.nowMs), Nobody,
                                 Last(run).accepted + [Key(request)], Last(run).revoked)
  {
    hide NonceSaved;
    hide Seen;
    longer := ExtendValid(crypto, run, Begin(request));
    longer := ExtendValid(crypto, longer, RecordNonce);
    longer := ExtendValid(crypto, longer, Crash);
  }

  function Opening(): Run {
    Run([Host(StateFile(STATE_VERSION, 0, [], []), Nobody, [], [])], [])
  }

  function NonceOf(x: byte): (nonce: Bytes)
    ensures |nonce| == REVOKE_NONCE_LEN
    ensures nonce[0] == x
  {
    seq(REVOKE_NONCE_LEN, i => x)
  }

  lemma RecordedAlone(seen: seq<ConsumedRevocation>, nonce: Bytes, issuedAtMs: i64, nowMs: i64)
    requires |seen| <= 1 && (seen != [] ==> !Retained(nowMs, REVOKE_CLOCK_WINDOW_MS, seen[0]))
    ensures Recorded(seen, nonce, issuedAtMs, nowMs, REVOKE_CLOCK_WINDOW_MS) == [ConsumedRevocation(nonce, issuedAtMs)]
  {
    if seen != [] {
      assert seen[..|seen| - 1] == [];
    }
  }

  /** The same, when nothing else is left on record afterwards, or will be. */
  lemma RoundAlone(crypto: Crypto, run: Run, request: Request, seen: seq<ConsumedRevocation>) returns (longer: Run)
    requires run.Valid(crypto) && Enabled(Last(run), Begin(request)) && Last(run).disk.consumed == seen
    requires |seen| <= 1 && (seen != [] ==> seen[0].nonce != request.body.nonce)
    ensures longer.Valid(crypto)
    ensures longer.steps == run.steps + [Begin(request), RecordNonce, Crash]
    ensures Last(longer).holder.Nobody? && Last(longer).accepted == Last(run).accepted + [Key(request)]
    ensures (seen != [] ==> !Retained(request.nowMs, REVOKE_CLOCK_WINDOW_MS, seen[0])) ==>
              Last(longer).disk.consumed == [ConsumedRevocation(request.body.nonce, request.body.issuedAtMs)]
  {
    longer := Round(crypto, run, request);
    if seen != [] ==> !Retained(request.nowMs, REVOKE_CLOCK_WINDOW_MS, seen[0]) {
      RecordedAlone(seen, request.body.nonce, request.body.issuedAtMs, request.nowMs);
    }
  }

  /** Each request reads its clock before it takes the lock. If a later clock gets the lock first, its
      pruning can free a body that the earlier clock still finds fresh: accepted twice. */
  lemma {:induction false} ClocksOutOfLockOrderAdmitReplay(crypto: Crypto, peer: PinnedPeer) returns (run: Run)
    ensures run.Valid(crypto) && run.NoStaleSave() && !run.ClocksInLockOrder()
    ensures |Last(run).accepted| == 3 && Last(run).accepted[0] == Last(run).accepted[2]
  {
    var body, other := Body([], [], 0, NonceOf(1), []), Body([], [], 300_001, NonceOf(2), []);
    assert body.nonce[0] != other.nonce[0];
    var first, second, third := Request(body, peer, 0), Request(other, peer, 300_001), Request(body, peer, 300_000);
    run := Opening();
    run := RoundAlone(crypto, run, first, []);
    run := RoundAlone(crypto, run, second, [ConsumedRevocation(body.nonce, 0)]);
    run := RoundAlone(crypto, run, third, [ConsumedRevocation(other.nonce, 300_001)]);
    hide run.Valid;
    assert run.steps[3] == Begin(second) && run.steps[6] == Begin(third);
  }

  /** A process that writes back a file it loaded before a revocation erases the recorded nonce, and
      the same body is accepted again. */
  lemma {:induction false} StaleSavesAdmitReplay(crypto: Crypto, peer: PinnedPeer) returns (run: Run)
    ensures run.Valid(crypto) && run.ClocksInLockOrder() && !run.NoStaleSave()
    ensures |Last(run).accepted| == 2 && Last(run).accepted[0] == Last(run).accepted[1]
  {
    var request := Request(Body([], [], 0, NonceOf(1), []), peer, 0);
    run := Opening();
    var stale := Last(run).disk;
    run := Round(crypto, run, request);
    run := Extend(crypto, run, StaleSave(stale));
    run := Round(crypto, run, request);
    assert run.steps[3].StaleSave?;
  }
}
