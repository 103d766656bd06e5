/** The agent's record of whom it trusts, kept on disk. */
module HostState {
  import opened Wrappers
  import opened SaturatingI64
  import opened Identity

  const STATE_VERSION: nat := 3

  datatype PairedPeer = PairedPeer(pinned: PinnedPeer, relayDeviceId: Option<nat>, pairedAtMs: i64)

  datatype ConsumedRevocation = ConsumedRevocation(nonce: Bytes, issuedAtMs: i64)

  datatype StateFile = StateFile(
    version: nat, deviceId: nat, peers: seq<PairedPeer>, consumed: seq<ConsumedRevocation>)

  datatype StateError = Missing | WrongVersion(found: nat) | TamperedPin | Io

  datatype PeerSelector = All | DeviceId(id: nat) | FingerprintPrefix(prefix: string)

  function Fp(crypto: Crypto, peer: PairedPeer): Bytes {
    FingerprintOf(crypto, peer.pinned)
  }

  predicate Matches(crypto: Crypto, selector: PeerSelector, peer: PairedPeer) {
    match selector
    case All => true
    case DeviceId(id) => peer.relayDeviceId == Some(id)
    case FingerprintPrefix(prefix) => prefix <= HexEncode(Fp(crypto, peer))
  }

  // ---- Keeping some elements, in order -------------------------------------

  function Keep<T(!new)>(s: seq<T>, p: T -> bool): (r: seq<T>)
    ensures |r| <= |s|
    ensures forall x :: x in r <==> x in s && p(x)
  {
    if s == [] then []
    else if p(s[|s| - 1]) then Keep(s[..|s| - 1], p) + [s[|s| - 1]]
    else Keep(s[..|s| - 1], p)
  }

  lemma {:induction false} KeepAll<T(!new)>(s: seq<T>, p: T -> bool)
    requires forall x <- s :: p(x)
    ensures Keep(s, p) == s
  {
    if s != [] {
      KeepAll(s[..|s| - 1], p);
    }
  }

  lemma {:induction false} KeepAppend<T(!new)>(s: seq<T>, t: seq<T>, p: T -> bool)
    ensures Keep(s + t, p) == Keep(s, p) + Keep(t, p)
  {
    if t == [] {
      assert s + t == s;
    } else {
      assert (s + t)[..|s + t| - 1] == s + t[..|t| - 1];
      KeepAppend(s, t[..|t| - 1], p);
    }
  }

  // ---- What each operation does to the file --------------------------------

  ghost predicate AllVerify(crypto: Crypto, peers: seq<PairedPeer>) {
    forall peer <- peers :: Verify(crypto, peer.pinned).Ok?
  }

  /** Reading the file back: the schema version, then every pin's cross-signature. */
  function ParseState(crypto: Crypto, content: Option<StateFile>): (r: Result<StateFile, StateError>)
    ensures r.Ok? <==> content.Some? && content.value.version == STATE_VERSION && AllVerify(crypto, content.value.peers)
    ensures r.Ok? ==> r.value == content.value
  {
    match content
    case None => Err(Missing)
    case Some(file) =>
      if file.version != STATE_VERSION then Err(WrongVersion(file.version))
      else if forall peer <- file.peers :: Verify(crypto, peer.pinned).Ok? then Ok(file)
      else Err(TamperedPin)
  }

  function AddedPeer(crypto: Crypto, peers: seq<PairedPeer>, peer: PairedPeer): seq<PairedPeer> {
    Keep(peers, (p: PairedPeer) => Fp(crypto, p) != Fp(crypto, peer)) + [peer]
  }

  function Remaining(crypto: Crypto, peers: seq<PairedPeer>, selector: PeerSelector): seq<PairedPeer> {
    Keep(peers, p => !Matches(crypto, selector, p))
  }

  function Selected(crypto: Crypto, peers: seq<PairedPeer>, selector: PeerSelector): seq<PairedPeer> {
    Keep(peers, p => Matches(crypto, selector, p))
  }

  predicate Seen(consumed: seq<ConsumedRevocation>, nonce: Bytes) {
    exists i :: 0 <= i < |consumed| && consumed[i].nonce == nonce
  }

  /** Still within the window in which a replay could pass the freshness check. */
  predicate Retained(nowMs: i64, windowMs: i64, seen: ConsumedRevocation) {
    SatSub(nowMs, seen.issuedAtMs) <= windowMs
  }

  function Recorded(consumed: seq<ConsumedRevocation>, nonce: Bytes, issuedAtMs: i64, nowMs: i64, windowMs: i64)
    : seq<ConsumedRevocation>
  {
    Keep(consumed, seen => Retained(nowMs, windowMs, seen)) + [ConsumedRevocation(nonce, issuedAtMs)]
  }

  // ---- The file on disk ----------------------------------------------------

  /** A store written by rename: each write either takes effect whole or not at all. */
  class Disk {
    var content: Option<StateFile>
    var faults: seq<bool>

    constructor (content: Option<StateFile>, faults: seq<bool>)
      ensures this.content == content && this.faults == faults
    {
      this.content, this.faults := content, faults;
    }

    method Replace(file: StateFile) returns (r: Result<(), StateError>)
      modifies this
      ensures r.Ok? ==> content == Some(file)
      ensures r.Err? ==> content == old(content) && r.error == Io
      ensures true !in old(faults) ==> r.Ok? && true !in faults
    {
      var fails := false;
      if faults != [] {
        fails := faults[0];
        faults := faults[1..];
      }
      if fails {
        return Err(Io);
      }
      content := Some(file);
      return Ok(());
    }
  }

  class HostState {
    const crypto: Crypto
    const disk: Disk
    var file: StateFile

    constructor FromFile(crypto: Crypto, disk: Disk, file: StateFile)
      ensures this.crypto == crypto && this.disk == disk && this.file == file
    {
      this.crypto, this.disk, this.file := crypto, disk, file;
    }

    static method Load(crypto: Crypto, disk: Disk) returns (r: Result<HostState, StateError>)
      ensures r.Ok? <==> ParseState(crypto, disk.content).Ok?
      ensures r.Ok? ==> fresh(r.value) && r.value.disk == disk && r.value.crypto == crypto
                        && Some(r.value.file) == disk.content
      ensures r.Err? ==> r.error == ParseState(crypto, disk.content).error
    {
      var parsed := ParseState(crypto, disk.content);
      if parsed.Err? {
        return Err(parsed.error);
      }
      var state := new HostState.FromFile(crypto, disk, parsed.value);
      return Ok(state);
    }

    /** Read only the pinned peers; a missing file means nobody is pinned. */
    static method ReadPeers(crypto: Crypto, disk: Disk) returns (r: Result<seq<PairedPeer>, StateError>)
      ensures disk.content.None? ==> r == Ok([])
      ensures disk.content.Some? ==> (r.Ok? <==> ParseState(crypto, disk.content).Ok?)
      ensures disk.content.Some? && r.Ok? ==> r.value == disk.content.value.peers
    {
      if disk.content.None? {
        return Ok([]);
      }
      var parsed := ParseState(crypto, disk.content);
      return if parsed.Ok? then Ok(parsed.value.peers) else Err(parsed.error);
    }

    method AddPeer(peer: PairedPeer) returns (r: Result<(), StateError>)
      modifies this`file, disk
      ensures file == old(file).(peers := AddedPeer(crypto, old(file).peers, peer))
      ensures r.Ok? ==> disk.content == Some(file)
      ensures r.Err? ==> disk.content == old(disk.content) && r.error == Io
      ensures true !in old(disk.faults) ==> r.Ok? && true !in disk.faults
    {
      file := file.(peers := AddedPeer(crypto, file.peers, peer));
      r := disk.Replace(file);
    }

    /** Record a nonce, pruning in the same write; `Ok(false)` when it has been seen. */
    method ConsumeRevocationNonce(nonce: Bytes, issuedAtMs: i64, nowMs: i64, windowMs: i64)
      returns (r: Result<bool, StateError>)
      modifies this`file, disk
      ensures r == Ok(false) <==> Seen(old(file).consumed, nonce)
      ensures r == Ok(false) ==> file == old(file) && disk.content == old(disk.content) && disk.faults == old(disk.faults)
      ensures r != Ok(false) ==>
                file == old(file).(consumed := Recorded(old(file).consumed, nonce, issuedAtMs, nowMs, windowMs))
      ensures r.Ok? && r.value ==> disk.content == Some(file)
      ensures r.Err? ==> disk.content == old(disk.content) && r.error == Io
      ensures true !in old(disk.faults) ==> r.Ok? && true !in disk.faults
    {
      if Seen(file.consumed, nonce) {
        return Ok(false);
      }
      file := file.(consumed := Recorded(file.consumed, nonce, issuedAtMs, nowMs, windowMs));
      var saved := disk.Replace(file);
      return if saved.Ok? then Ok(true) else Err(saved.error);
    }

    /** Remove every matching peer, saving even when nothing matched. */
    method RemovePeers(selector: PeerSelector) returns (r: Result<seq<PairedPeer>, StateError>)
      modifies this`file, disk
      ensures file == old(file).(peers := Remaining(crypto, old(file).peers, selector))
      ensures r.Ok? ==> disk.content == Some(file) && r.value == Selected(crypto, old(file).peers, selector)
      ensures r.Err? ==> disk.content == old(disk.content) && r.error == Io
      ensures true !in old(disk.faults) ==> r.Ok? && true !in disk.faults
    {
      var removed := Selected(crypto, file.peers, selector);
      file := file.(peers := Remaining(crypto, file.peers, selector));
      var saved := disk.Replace(file);
      return if saved.Ok? then Ok(removed) else Err(saved.error);
    }
  }
}
