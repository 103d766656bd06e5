/** Whom the store holds after any history of pairing, rotating, unpairing and reloading. */
module PinStore {
  import opened Wrappers
  import opened SaturatingI64
  import opened Identity
  import opened HostState

  datatype Op =
    | Pair(public: PublicIdentity, relayDeviceId: Option<nat>, atMs: i64)
    | Rotate(fingerprint: Bytes, public: PublicIdentity, atMs: i64)
    | Unpair(selector: PeerSelector)
    | Reload

  /** The pin held for a fingerprint, if any. */
  function Held(crypto: Crypto, peers: seq<PairedPeer>, fingerprint: Bytes): (r: Option<PairedPeer>)
    ensures r.Some? ==> r.value in peers && Fp(crypto, r.value) == fingerprint
    ensures r.None? ==> forall p <- peers :: Fp(crypto, p) != fingerprint
  {
    if peers == [] then None
    else if Fp(crypto, peers[0]) == fingerprint then Some(peers[0])
    else Held(crypto, peers[1..], fingerprint)
  }

  /** The record an operation adds, if it adds one. */
  function Addition(crypto: Crypto, peers: seq<PairedPeer>, op: Op): Option<PairedPeer> {
    match op
    case Pair(public, id, at) =>
      (match PinPeer(crypto, public)
       case Ok(pin) => Some(PairedPeer(pin, id, at))
       case Err(_) => None)
    case Rotate(fingerprint, public, at) =>
      (match Held(crypto, peers, fingerprint)
       case None => None
       case Some(held) =>
         match AcceptStatic(crypto, held.pinned, public)
         case Ok(pin) => Some(PairedPeer(pin, held.relayDeviceId, at))
         case Err(_) => None)
    case _ => None
  }

  function After(crypto: Crypto, peers: seq<PairedPeer>, op: Op): seq<PairedPeer> {
    match op
    case Unpair(selector) => Remaining(crypto, peers, selector)
    case Reload =>
      var file := StateFile(STATE_VERSION, 0, peers, []);
      (match ParseState(crypto, Some(file)) case Ok(read) => read.peers case Err(_) => [])
    case _ =>
      match Addition(crypto, peers, op)
      case Some(peer) => AddedPeer(crypto, peers, peer)
      case None => peers
  }

  function PeersAfter(crypto: Crypto, ops: seq<Op>): seq<PairedPeer> {
    if ops == [] then [] else After(crypto, PeersAfter(crypto, ops[..|ops| - 1]), ops[|ops| - 1])
  }

  /** The last record any operation of the history added for a fingerprint. */
  function LastAdded(crypto: Crypto, ops: seq<Op>, fingerprint: Bytes): Option<PairedPeer> {
    if ops == [] then None
    else
      var init := ops[..|ops| - 1];
      match Addition(crypto, PeersAfter(crypto, init), ops[|ops| - 1])
      case Some(peer) =>
        if Fp(crypto, peer) == fingerprint then Some(peer) else LastAdded(crypto, init, fingerprint)
      case None => LastAdded(crypto, init, fingerprint)
  }

  ghost predicate Distinct(crypto: Crypto, peers: seq<PairedPeer>) {
    forall i, j :: 0 <= i < j < |peers| ==> Fp(crypto, peers[i]) != Fp(crypto, peers[j])
  }

  lemma {:induction false} KeepDistinct(crypto: Crypto, peers: seq<PairedPeer>, p: PairedPeer -> bool)
    requires Distinct(crypto, peers)
    ensures Distinct(crypto, Keep(peers, p))
  {
    if peers != [] {
      var init, last := peers[..|peers| - 1], peers[|peers| - 1];
      KeepDistinct(crypto, init, p);
      forall x | x in Keep(init, p) ensures Fp(crypto, x) != Fp(crypto, last) {
        var i :| 0 <= i < |init| && init[i] == x;
      }
    }
  }

  /** Over every history from an empty store: identities are pairwise distinct, and each held pin is
      the last one added for its identity and is signed by it. */
  lemma {:induction false} StoreIsTrustworthy(crypto: Crypto, ops: seq<Op>)
    ensures Distinct(crypto, PeersAfter(crypto, ops))
    ensures AllVerify(crypto, PeersAfter(crypto, ops))
    ensures forall p <- PeersAfter(crypto, ops) :: LastAdded(crypto, ops, Fp(crypto, p)) == Some(p)
  {
    if ops != [] {
      var init, op := ops[..|ops| - 1], ops[|ops| - 1];
      var peers := PeersAfter(crypto, init);
      StoreIsTrustworthy(crypto, init);
      hide Distinct;
      match op
      case Unpair(selector) => KeepDistinct(crypto, peers, p => !Matches(crypto, selector, p));
      case Reload =>
      case _ =>
        if Addition(crypto, peers, op).Some? {
          var added := Addition(crypto, peers, op).value;
          KeepDistinct(crypto, peers, (p: PairedPeer) => Fp(crypto, p) != Fp(crypto, added));
          AddedDistinct(crypto, peers, added);
        }
    }
  }

  lemma AddedDistinct(crypto: Crypto, peers: seq<PairedPeer>, added: PairedPeer)
    requires Distinct(crypto, Keep(peers, (p: PairedPeer) => Fp(crypto, p) != Fp(crypto, added)))
    ensures Distinct(crypto, AddedPeer(crypto, peers, added))
  {
    var kept := Keep(peers, (p: PairedPeer) => Fp(crypto, p) != Fp(crypto, added));
    assert forall i :: 0 <= i < |kept| ==> kept[i] in kept;
    assert AddedPeer(crypto, peers, added) == kept + [added];
  }

  /** Saving and loading never loses or changes a pin the store holds. */
  lemma ReloadIsIdentity(crypto: Crypto, ops: seq<Op>)
    ensures PeersAfter(crypto, ops + [Reload]) == PeersAfter(crypto, ops)
  {
    StoreIsTrustworthy(crypto, ops);
    assert (ops + [Reload])[..|ops|] == ops;
  }

  /** A rotation the pinned identity did not sign leaves the store as it was; one it did sign replaces
      that record, last in order, and touches no other identity's. */
  lemma {:induction false} RotationOutcome(crypto: Crypto, ops: seq<Op>, fingerprint: Bytes, public: PublicIdentity, at: i64, other: Bytes)
    requires other != fingerprint
    ensures var peers, after := PeersAfter(crypto, ops), PeersAfter(crypto, ops + [Rotate(fingerprint, public, at)]);
            var held := Held(crypto, peers, fingerprint);
            if held.Some? && AcceptStatic(crypto, held.value.pinned, public).Ok? then
              && |after| > 0
              && after[|after| - 1].pinned.noiseStaticPub == public.noiseStaticPub
              && Fp(crypto, after[|after| - 1]) == fingerprint
              && Keep(after, (p: PairedPeer) => Fp(crypto, p) == other)
                 == Keep(peers, (p: PairedPeer) => Fp(crypto, p) == other)
            else after == peers
  {
    var peers := PeersAfter(crypto, ops);
    var op := Rotate(fingerprint, public, at);
    assert (ops + [op])[..|ops|] == ops;
    if Addition(crypto, peers, op).Some? {
      var added := Addition(crypto, peers, op).value;
      var others := (p: PairedPeer) => Fp(crypto, p) == other;
      KeepAppend(Keep(peers, (p: PairedPeer) => Fp(crypto, p) != Fp(crypto, added)), [added], others);
      KeepKeep(peers, (p: PairedPeer) => Fp(crypto, p) != Fp(crypto, added), others);
    }
  }

  lemma {:induction false} KeepKeep<T(!new)>(s: seq<T>, p: T -> bool, q: T -> bool)
    requires forall x <- s :: q(x) ==> p(x)
    ensures Keep(Keep(s, p), q) == Keep(s, q)
  {
    if s != [] {
      KeepKeep(s[..|s| - 1], p, q);
      KeepAppend(Keep(s[..|s| - 1], p), if p(s[|s| - 1]) then [s[|s| - 1]] else [], q);
    }
  }

  /** Unpairing by a full fingerprint removes that identity's pin, exactly, and keeps the rest in order. */
  lemma {:induction false} FullFingerprintRemovesOne(crypto: Crypto, ops: seq<Op>, k: nat)
    requires CollisionFree(crypto) && k < |PeersAfter(crypto, ops)|
    ensures var peers := PeersAfter(crypto, ops);
            var selector := FingerprintPrefix(HexEncode(Fp(crypto, peers[k])));
            && Remaining(crypto, peers, selector) == peers[..k] + peers[k + 1..]
            && Selected(crypto, peers, selector) == [peers[k]]
  {
    var peers := PeersAfter(crypto, ops);
    StoreIsTrustworthy(crypto, ops);
    var selector := FingerprintPrefix(HexEncode(Fp(crypto, peers[k])));
    forall i | 0 <= i < |peers| ensures Matches(crypto, selector, peers[i]) <==> i == k {
      if Matches(crypto, selector, peers[i]) {
        HexPrefixIsEquality(Fp(crypto, peers[k]), Fp(crypto, peers[i]));
      }
    }
    hide *;
    OneMatches(crypto, peers, selector, k);
  }

  lemma OneMatches(crypto: Crypto, peers: seq<PairedPeer>, selector: PeerSelector, k: nat)
    requires k < |peers| && forall i :: 0 <= i < |peers| ==> (Matches(crypto, selector, peers[i]) <==> i == k)
    ensures Remaining(crypto, peers, selector) == peers[..k] + peers[k + 1..]
    ensures Selected(crypto, peers, selector) == [peers[k]]
  {
    hide Matches;
    var before, after := peers[..k], peers[k + 1..];
    assert peers == before + [peers[k]] + after;
    KeepAround(before, peers[k], after, p => !Matches(crypto, selector, p));
    KeepAround(before, peers[k], after, p => Matches(crypto, selector, p));
  }

  /** Around one element a predicate singles out, keeping either side of it. */
  lemma KeepAround<T(!new)>(a: seq<T>, x: T, b: seq<T>, p: T -> bool)
    requires forall y <- a :: p(y) != p(x)
    requires forall y <- b :: p(y) != p(x)
    ensures Keep(a + [x] + b, p) == if p(x) then [x] else a + b
  {
    KeepAppend(a + [x], b, p);
    if p(x) {
      KeepNone(a, p);
      KeepNone(b, p);
    } else {
      KeepAll(a, p);
      KeepAll(b, p);
    }
  }

  lemma {:induction false} KeepNone<T(!new)>(s: seq<T>, p: T -> bool)
    requires forall x <- s :: !p(x)
    ensures Keep(s, p) == []
  {
    if s != [] {
      KeepNone(s[..|s| - 1], p);
    }
  }
}
