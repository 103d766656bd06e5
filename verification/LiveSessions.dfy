/** Session threads, pin-store writers and the revocation watcher, interleaved in every possible way. */
module LiveSessions {
  import opened SessionRegistry

  // ---- The transition system -----------------------------------------------

  /** Where a session thread has got to. `id` is its key in the registry. */
  datatype Thread =
    | Connected(pins: seq<Pin>)
    | Authenticated(pin: Pin)
    | Registered(pin: Pin, id: nat)
    | Serving(pin: Pin, id: nat)

  /** The watcher reads the store, and later closes against what it read. */
  datatype Watcher = Resting | HasRead(pins: seq<Pin>)

  /** The pin store on disk, the threads, the registry table, and the watcher. */
  datatype State = State(
    store: seq<Pin>, threads: map<nat, Thread>, table: map<nat, Entry>, nextId: nat, watcher: Watcher)

  /** Each file read, file write and registry lock section is one step. */
  datatype Step =
    | Accept(t: nat)
    | Handshake(t: nat, pin: Pin)
    | Register(t: nat)
    | Recheck(t: nat)
    | End(t: nat)
    | Hangup(id: nat)
    | WriteStore(pins: seq<Pin>)
    | WatcherRead
    | WatcherClose
    | RevokeIdentity(peer: Fingerprint)
    | RevokeAll

  const EMPTY: State := State([], map[], map[], 0, Resting)

  predicate Enabled(s: State, step: Step) {
    match step
    case Accept(t) => t !in s.threads
    // The handshake authenticates one of the peers pinned when the socket was accepted.
    case Handshake(t, pin) => t in s.threads && s.threads[t].Connected? && pin in s.threads[t].pins
    case Register(t) => t in s.threads && s.threads[t].Authenticated?
    case Recheck(t) => t in s.threads && s.threads[t].Registered?
    case End(t) => t in s.threads
    case Hangup(id) => id in s.table
    case WatcherRead => s.watcher.Resting?
    case WatcherClose => s.watcher.HasRead?
    case _ => true
  }

  /** A thread that unwinds drops its registry handle, if it has one. */
  function Unwind(s: State, t: nat): State
    requires t in s.threads
  {
    var thread := s.threads[t];
    s.(threads := s.threads - {t},
       table := if PastRegistration(thread) then s.table - {thread.id} else s.table)
  }

  function After(s: State, step: Step): State
    requires Enabled(s, step)
  {
    match step
    case Accept(t) => s.(threads := s.threads[t := Connected(s.store)])
    case Handshake(t, pin) => s.(threads := s.threads[t := Authenticated(pin)])
    case Register(t) =>
      var pin := s.threads[t].pin;
      s.(threads := s.threads[t := Registered(pin, s.nextId)],
         table := s.table[s.nextId := Entry(pin.fingerprint, true)],
         nextId := s.nextId + 1)
    case Recheck(t) =>
      var Registered(pin, id) := s.threads[t];
      if pin in s.store then s.(threads := s.threads[t := Serving(pin, id)]) else Unwind(s, t)
    case End(t) => Unwind(s, t)
    case Hangup(id) => s.(table := s.table[id := Entry(s.table[id].peer, false)])
    case WriteStore(pins) => s.(store := pins)
    case WatcherRead => s.(watcher := HasRead(s.store))
    case WatcherClose =>
      s.(table := CloseMatching(s.table, NotPinned(s.watcher.pins)), watcher := Resting)
    case RevokeIdentity(peer) => s.(table := CloseMatching(s.table, IsPeer(peer)))
    case RevokeAll => s.(table := CloseMatching(s.table, _ => true))
  }

  datatype Run = Run(states: seq<State>, steps: seq<Step>) {
    ghost predicate Valid() {
      && |states| == |steps| + 1
      && states[0].threads == map[] && states[0].table == map[] && states[0].watcher.Resting?
      && forall i :: 0 <= i < |steps| ==> Enabled(states[i], steps[i]) && states[i + 1] == After(states[i], steps[i])
    }

    /** No pin of `peer` is on disk at any state from `i` to `n`. */
    ghost predicate Unpinned(peer: Fingerprint, i: nat, n: nat)
      requires n < |states|
    {
      forall m :: i <= m <= n ==> !IsPinned(states[m].store, peer)
    }
  }

  // ---- What every step keeps -----------------------------------------------

  predicate PastRegistration(thread: Thread) {
    thread.Registered? || thread.Serving?
  }

  /** Every thread past registration is in the registry, under its own key and its peer's name. */
  ghost predicate Visible(s: State) {
    && (forall t <- s.threads :: PastRegistration(s.threads[t]) ==>
          && s.threads[t].id in s.table
          && s.table[s.threads[t].id].peer == s.threads[t].pin.fingerprint)
    && (forall id <- s.table :: id < s.nextId)
    && (forall t, u | t in s.threads && u in s.threads && t != u ::
          PastRegistration(s.threads[t]) && PastRegistration(s.threads[u]) ==> s.threads[t].id != s.threads[u].id)
  }

  /** Thread `t` is serving `peer` over an open socket. */
  predicate ServesOpen(s: State, t: nat, peer: Fingerprint) {
    && t in s.threads && s.threads[t].Serving?
    && s.threads[t].pin.fingerprint == peer
    && s.threads[t].id in s.table && s.table[s.threads[t].id].open
  }

  ghost predicate Reachable(s: State, peer: Fingerprint) {
    exists t :: ServesOpen(s, t, peer)
  }

  lemma StepKeepsVisible(s: State, step: Step)
    requires Visible(s) && Enabled(s, step)
    ensures Visible(After(s, step))
  {
  }

  lemma {:induction false} AlwaysVisible(run: Run, i: nat)
    requires run.Valid() && i < |run.states|
    ensures Visible(run.states[i])
  {
    if i > 0 {
      AlwaysVisible(run, i - 1);
      StepKeepsVisible(run.states[i - 1], run.steps[i - 1]);
    }
  }

  // ---- Registered before re-read -------------------------------------------

  /** The order behind the guarantee. A thread that serves was registered at some earlier step, then
      found its own pin in the store at a later one, and its registry entry has been there since. */
  lemma {:induction false} ServingWasRegisteredFirst(run: Run, n: nat, t: nat) returns (r: nat, c: nat)
    requires run.Valid() && n < |run.states|
    requires t in run.states[n].threads && run.states[n].threads[t].Serving?
    ensures r < c < n && run.steps[r] == Register(t) && run.steps[c] == Recheck(t)
    ensures var Serving(pin, id) := run.states[n].threads[t];
            && pin in run.states[c].store
            && run.states[r].nextId == id
            && forall m :: r < m <= n ==> id in run.states[m].table && run.states[m].table[id].peer == pin.fingerprint
  {
    var before, step := run.states[n - 1], run.steps[n - 1];
    var Serving(pin, id) := run.states[n].threads[t];
    AlwaysVisible(run, n);
    assert Enabled(before, step) && run.states[n] == After(before, step);
    ServedBefore(before, step, t);
    hide After;
    hide Enabled;
    if step == Recheck(t) {
      c := n - 1;
      r := RegisteredSince(run, n - 1, t);
    } else {
      r, c := ServingWasRegisteredFirst(run, n - 1, t);
    }
  }

  /** A thread comes to serve by its re-read alone, and serves on unchanged. */
  lemma ServedBefore(s: State, step: Step, t: nat)
    requires Enabled(s, step) && t in After(s, step).threads && After(s, step).threads[t].Serving?
    ensures t in s.threads
    ensures var Serving(pin, id) := After(s, step).threads[t];
      if step == Recheck(t) then s.threads[t] == Registered(pin, id) && pin in s.store
      else s.threads[t] == Serving(pin, id)
  {
  }

  lemma {:induction false} RegisteredSince(run: Run, n: nat, t: nat) returns (r: nat)
    requires run.Valid() && n < |run.states|
    requires t in run.states[n].threads && run.states[n].threads[t].Registered?
    ensures r < n && run.steps[r] == Register(t)
    ensures var Registered(pin, id) := run.states[n].threads[t];
            && run.states[r].nextId == id
            && forall m :: r < m <= n ==> id in run.states[m].table && run.states[m].table[id].peer == pin.fingerprint
  {
    AlwaysVisible(run, n);
    if run.steps[n - 1] == Register(t) {
      r := n - 1;
    } else {
      r := RegisteredSince(run, n - 1, t);
    }
  }

  // ---- Revocation ----------------------------------------------------------

  /** A session cannot come to serve a peer that is not pinned, and a closed socket stays closed. */
  lemma StepKeepsUnreachable(s: State, step: Step, peer: Fingerprint)
    requires Visible(s) && Enabled(s, step)
    requires !IsPinned(s.store, peer) && !Reachable(s, peer)
    ensures !Reachable(After(s, step), peer)
  {
    var s' := After(s, step);
    forall t ensures !ServesOpen(s', t, peer) {
      assert !ServesOpen(s, t, peer);
    }
  }

  /** Closing against anything that dooms `peer` leaves no session of that peer open. */
  lemma SweepUnreaches(s: State, step: Step, peer: Fingerprint)
    requires Visible(s) && Enabled(s, step)
    requires (step == WatcherClose && !IsPinned(s.watcher.pins, peer)) || step == RevokeIdentity(peer) || step == RevokeAll
    ensures !Reachable(After(s, step), peer)
  {
  }

  lemma {:induction false} StaysUnreachable(run: Run, peer: Fingerprint, k: nat, m: nat)
    requires run.Valid() && k <= m < |run.states|
    requires run.Unpinned(peer, k, m) && !Reachable(run.states[k], peer)
    ensures !Reachable(run.states[m], peer)
    decreases m - k
  {
    if k < m {
      StaysUnreachable(run, peer, k, m - 1);
      AlwaysVisible(run, m - 1);
      StepKeepsUnreachable(run.states[m - 1], run.steps[m - 1], peer);
    }
  }

  lemma {:induction false} WatcherRemembers(run: Run, j: nat, k: nat)
    requires run.Valid() && j < k < |run.states| && run.steps[j] == WatcherRead
    requires forall m :: j < m < k ==> run.steps[m] != WatcherClose
    ensures run.states[k].watcher == HasRead(run.states[j].store)
    decreases k - j
  {
    if j + 1 < k {
      WatcherRemembers(run, j, k - 1);
    }
  }

  /** The entry is shut, or gone for good. */
  predicate IsShut(s: State, id: nat) {
    id < s.nextId && (id in s.table ==> !s.table[id].open)
  }

  lemma StepKeepsShut(s: State, step: Step, id: nat)
    requires Enabled(s, step) && IsShut(s, id)
    ensures IsShut(After(s, step), id)
  {
  }

  lemma {:induction false} StaysShut(run: Run, id: nat, k: nat, n: nat)
    requires run.Valid() && k <= n < |run.states| && IsShut(run.states[k], id)
    ensures IsShut(run.states[n], id)
    decreases n - k
  {
    if k < n {
      StaysShut(run, id, k, n - 1);
      StepKeepsShut(run.states[n - 1], run.steps[n - 1], id);
    }
  }

  /** What one watcher cycle does to each entry, whatever is pinned afterwards: it stays open across the
      close exactly if it was open and the read found its peer pinned, and if the read did not, it is shut
      or gone in every later state. */
  lemma WatcherCycleIsFinal(run: Run, id: nat, j: nat, k: nat, n: nat)
    requires run.Valid() && j < k < n < |run.states|
    requires run.steps[j] == WatcherRead && run.steps[k] == WatcherClose
    requires forall m :: j < m < k ==> run.steps[m] != WatcherClose
    requires id in run.states[k].table
    ensures var pinned := IsPinned(run.states[j].store, run.states[k].table[id].peer);
      && id in run.states[k + 1].table
      && (run.states[k + 1].table[id].open <==> run.states[k].table[id].open && pinned)
      && (!pinned && id in run.states[n].table ==> !run.states[n].table[id].open)
  {
    WatcherRemembers(run, j, k);
    AlwaysVisible(run, k);
    assert run.states[k + 1] == After(run.states[k], WatcherClose);
    if !IsPinned(run.states[j].store, run.states[k].table[id].peer) {
      StaysShut(run, id, k + 1, n);
    }
  }

  /** So whoever serves a peer over an open socket after a cycle whose read did not find it pinned has found
      it pinned again since that read. */
  lemma ServesOnlyRepinned(run: Run, peer: Fingerprint, j: nat, k: nat, n: nat, t: nat) returns (c: nat)
    requires run.Valid() && j < k < n < |run.states|
    requires run.steps[j] == WatcherRead && run.steps[k] == WatcherClose
    requires forall m :: j < m < k ==> run.steps[m] != WatcherClose
    requires !IsPinned(run.states[j].store, peer) && ServesOpen(run.states[n], t, peer)
    ensures j < c < n && run.steps[c] == Recheck(t) && IsPinned(run.states[c].store, peer)
  {
    var Serving(pin, id) := run.states[n].threads[t];
    var r, found := ServingWasRegisteredFirst(run, n, t);
    c := found;
    var i :| 0 <= i < |run.states[c].store| && run.states[c].store[i] == pin;
    assert run.states[c].store[i].fingerprint == peer;
    if c <= j {
      assert id in run.states[k].table && run.states[k].table[id].peer == peer;
      WatcherCycleIsFinal(run, id, j, k, n);
    }
  }

  /** Revocation is complete. Once a watcher cycle whose read follows the removal of a peer's pin has
      finished closing, no session of that peer serves over an open socket, in any interleaving, for
      as long as the identity is not pinned again. */
  lemma WatcherCycleRevokes(run: Run, peer: Fingerprint, j: nat, k: nat, n: nat)
    requires run.Valid() && j < k < n < |run.states|
    requires run.steps[j] == WatcherRead && run.steps[k] == WatcherClose
    requires forall m :: j < m < k ==> run.steps[m] != WatcherClose
    requires run.Unpinned(peer, j, n)
    ensures !Reachable(run.states[n], peer)
  {
    if t :| ServesOpen(run.states[n], t, peer) {
      var c := ServesOnlyRepinned(run, peer, j, k, n, t);
    }
  }

  /** The in-process path needs no watcher: hanging up on an identity whose pin is already gone holds
      from that step on. */
  lemma HangingUpRevokes(run: Run, peer: Fingerprint, k: nat, n: nat)
    requires run.Valid() && k < n < |run.states|
    requires run.steps[k] == RevokeIdentity(peer)
    requires run.Unpinned(peer, k, n)
    ensures !Reachable(run.states[n], peer)
  {
    AlwaysVisible(run, k);
    SweepUnreaches(run.states[k], RevokeIdentity(peer), peer);
    StaysUnreachable(run, peer, k + 1, n);
  }

  /** Why the guarantee excludes pinning again: a pin removed and restored between two reads of the
      watcher leaves the old session serving, although a whole cycle has passed since the removal. */
  lemma RepinnedBetweenReadsSurvives(pin: Pin) returns (run: Run)
    ensures run.Valid() && |run.steps| == 8
    ensures run.steps[4] == WriteStore([]) && run.steps[6] == WatcherRead && run.steps[7] == WatcherClose
    ensures !IsPinned(run.states[5].store, pin.fingerprint)
    ensures Reachable(run.states[8], pin.fingerprint)
  {
    var steps := [Accept(0), Handshake(0, pin), Register(0), Recheck(0),
                  WriteStore([]), WriteStore([pin]), WatcherRead, WatcherClose];
    var s0 := EMPTY.(store := [pin]);
    var s1 := After(s0, steps[0]);
    var s2 := After(s1, steps[1]);
    var s3 := After(s2, steps[2]);
    var s4 := After(s3, steps[3]);
    var s5 := After(s4, steps[4]);
    var s6 := After(s5, steps[5]);
    var s7 := After(s6, steps[6]);
    assert s7.watcher.pins[0].fingerprint == pin.fingerprint;
    var s8 := After(s7, steps[7]);
    run := Run([s0, s1, s2, s3, s4, s5, s6, s7, s8], steps);
    assert ServesOpen(s8, 0, pin.fingerprint);
  }
}
