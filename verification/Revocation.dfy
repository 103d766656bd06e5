/** Verifying a peer-signed `pair.revoke`, and applying it to the pin store. */
module Revocation {
  import opened Wrappers
  import opened SaturatingI64
  import opened Identity
  import opened HostState
  import opened AuditLog
  import SessionRegistry

  const REVOKE_NONCE_LEN: nat := 32
  const REVOKE_CLOCK_WINDOW_MS: i64 := 300_000

  /** ASCII of `osprey/pair.revoke/v1`. */
  const REVOKE_CONTEXT: Bytes :=
    [111, 115, 112, 114, 101, 121, 47, 112, 97, 105, 114, 46, 114, 101, 118, 111, 107, 101, 47, 118, 49]

  datatype Rejection = Malformed | WrongIssuer | UnrelatedTarget | StaleClock | BadRevokeSignature | ReplayedNonce

  datatype Body = Body(issuer: Bytes, revoked: Bytes, issuedAtMs: i64, nonce: Bytes, signature: Bytes)

  // ---- The signed message --------------------------------------------------

  /** The low `k` bytes of `x`, most significant first. */
  function BigEndian(x: nat, k: nat): (b: Bytes)
    ensures |b| == k
  {
    if k == 0 then [] else BigEndian(x / 256, k - 1) + [x % 256]
  }

  function Pow256(k: nat): nat {
    if k == 0 then 1 else 256 * Pow256(k - 1)
  }

  lemma {:induction false} BigEndianInjective(x: nat, y: nat, k: nat)
    requires x < Pow256(k) && y < Pow256(k) && BigEndian(x, k) == BigEndian(y, k)
    ensures x == y
  {
    if k > 0 {
      assert BigEndian(x, k)[..k - 1] == BigEndian(x / 256, k - 1);
      assert BigEndian(y, k)[..k - 1] == BigEndian(y / 256, k - 1);
      assert BigEndian(x, k)[k - 1] == x % 256 && BigEndian(y, k)[k - 1] == y % 256;
      BigEndianInjective(x / 256, y / 256, k - 1);
    }
  }

  /** Two's complement, eight bytes. */
  function I64Bytes(x: i64): Bytes {
    BigEndian(if x < 0 then x as int + 0x1_0000_0000_0000_0000 else x as int, 8)
  }

  lemma I64BytesInjective(x: i64, y: i64)
    requires I64Bytes(x) == I64Bytes(y)
    ensures x == y
  {
    assert Pow256(8) == 0x1_0000_0000_0000_0000 by {
      assert Pow256(2) == 65536;
      assert Pow256(4) == 65536 * 65536;
      assert Pow256(6) == 65536 * Pow256(4);
    }
    BigEndianInjective(if x < 0 then x as int + 0x1_0000_0000_0000_0000 else x as int,
                       if y < 0 then y as int + 0x1_0000_0000_0000_0000 else y as int, 8);
  }

  function SigningBytes(issuer: Bytes, revoked: Bytes, issuedAtMs: i64, nonce: Bytes): Bytes {
    REVOKE_CONTEXT + (issuer + (revoked + (I64Bytes(issuedAtMs) + nonce)))
  }

  lemma SplitAt(a: Bytes, s: Bytes, b: Bytes, t: Bytes)
    requires |a| == |b| && a + s == b + t
    ensures a == b && s == t
  {
    assert (a + s)[..|a|] == a && (b + t)[..|a|] == b;
    assert (a + s)[|a|..] == s && (b + t)[|a|..] == t;
  }

  /** No two distinct revocations produce the same signed message. */
  lemma SigningBytesInjective(a: Body, b: Body)
    requires |a.issuer| == |b.issuer| == 16 && |a.revoked| == |b.revoked| == 16
    requires SigningBytes(a.issuer, a.revoked, a.issuedAtMs, a.nonce)
             == SigningBytes(b.issuer, b.revoked, b.issuedAtMs, b.nonce)
    ensures a == b.(signature := a.signature)
  {
    var x, y := I64Bytes(a.issuedAtMs) + a.nonce, I64Bytes(b.issuedAtMs) + b.nonce;
    SplitAt(REVOKE_CONTEXT, a.issuer + (a.revoked + x), REVOKE_CONTEXT, b.issuer + (b.revoked + y));
    SplitAt(a.issuer, a.revoked + x, b.issuer, b.revoked + y);
    SplitAt(a.revoked, x, b.revoked, y);
    SplitAt(I64Bytes(a.issuedAtMs), a.nonce, I64Bytes(b.issuedAtMs), b.nonce);
    I64BytesInjective(a.issuedAtMs, b.issuedAtMs);
  }

  // ---- Verification --------------------------------------------------------

  predicate Fresh(issuedAtMs: i64, nowMs: i64) {
    SatAbs(SatSub(nowMs, issuedAtMs)) <= REVOKE_CLOCK_WINDOW_MS
  }

  /** Saturation never changes the verdict: fresh means within the window, on either side, exactly. */
  lemma FreshIsExact(issuedAtMs: i64, nowMs: i64)
    ensures Fresh(issuedAtMs, nowMs)
            <==> -REVOKE_CLOCK_WINDOW_MS <= nowMs as int - issuedAtMs as int <= REVOKE_CLOCK_WINDOW_MS
  {
  }

  function VerifyRevocation(crypto: Crypto, body: Body, peer: PinnedPeer, peerDeviceId: Bytes,
                            hostDeviceId: Bytes, nowMs: i64): (r: Result<Bytes, Rejection>)
    ensures r.Ok? <==>
            && |body.nonce| == REVOKE_NONCE_LEN
            && body.issuer == peerDeviceId
            && body.revoked in {peerDeviceId, hostDeviceId}
            && Fresh(body.issuedAtMs, nowMs)
            && VerifyIdentitySignature(crypto, peer.algorithm, peer.identityPub,
                                       SigningBytes(body.issuer, body.revoked, body.issuedAtMs, body.nonce),
                                       body.signature)
    ensures r.Ok? ==> r.value == body.nonce
    ensures r.Err? ==> r.error != ReplayedNonce
  {
    if |body.nonce| != REVOKE_NONCE_LEN then Err(Malformed)
    else if body.issuer != peerDeviceId then Err(WrongIssuer)
    else if body.revoked != body.issuer && body.revoked != hostDeviceId then Err(UnrelatedTarget)
    else if !Fresh(body.issuedAtMs, nowMs) then Err(StaleClock)
    else if !VerifyIdentitySignature(crypto, peer.algorithm, peer.identityPub,
                                     SigningBytes(body.issuer, body.revoked, body.issuedAtMs, body.nonce),
                                     body.signature)
    then Err(BadRevokeSignature)
    else Ok(body.nonce)
  }

  // ---- Applying one --------------------------------------------------------

  datatype Refusal = Rejected(reason: Rejection) | NotApplied(error: StateError)

  datatype ErrorCode = BadRequest | Conflict | Unauthorized | Internal

  /** Wire error class of a refusal. */
  function Code(refusal: Refusal): ErrorCode {
    match refusal
    case Rejected(Malformed) => BadRequest
    case Rejected(ReplayedNonce) => Conflict
    case Rejected(_) => Unauthorized
    case NotApplied(_) => Internal
  }

  /** `removed` says how many pins went, none if the peer was unpaired here meanwhile; `audited`, whether the
      unpairing could be recorded. */
  datatype Applied = Applied(fingerprint: Bytes, removed: nat, audited: bool)

  function Selector(crypto: Crypto, peer: PinnedPeer): PeerSelector {
    FingerprintPrefix(HexEncode(FingerprintOf(crypto, peer)))
  }

  /** The file once the nonce is recorded. */
  function NonceSaved(file: StateFile, body: Body, nowMs: i64): StateFile {
    file.(consumed := Recorded(file.consumed, body.nonce, body.issuedAtMs, nowMs, REVOKE_CLOCK_WINDOW_MS))
  }

  /** The file once the pin is gone too. */
  function PinRemoved(crypto: Crypto, file: StateFile, peer: PinnedPeer): StateFile {
    file.(peers := Remaining(crypto, file.peers, Selector(crypto, peer)))
  }

  /** What the locked half does to the disk. Whatever happens to its writes, the disk holds the old
      file, the file with the nonce, or the file with the nonce and without the pin. */
  ghost predicate LockedOutcome(crypto: Crypto, before: Option<StateFile>, after: Option<StateFile>,
                                body: Body, peer: PinnedPeer, nowMs: i64, r: Result<Applied, Refusal>)
  {
    var loaded := ParseState(crypto, before);
    if loaded.Err? then
      r == Err(NotApplied(loaded.error)) && after == before
    else if Seen(loaded.value.consumed, body.nonce) then
      r == Err(Rejected(ReplayedNonce)) && after == before
    else
      var recorded := NonceSaved(loaded.value, body, nowMs);
      match r
      case Ok(applied) =>
        && after == Some(PinRemoved(crypto, recorded, peer))
        && applied == Applied(FingerprintOf(crypto, peer),
                              |Selected(crypto, recorded.peers, Selector(crypto, peer))|, applied.audited)
      case Err(error) => error == NotApplied(Io) && after in {before, Some(recorded)}
  }

  /** What the log gains: one record of an applied revocation, if it can be written, and nothing otherwise. */
  function Logged(r: Result<Applied, Refusal>): seq<AuditEvent> {
    if r.Ok? && r.value.audited then [Unpaired(r.value.fingerprint, Peer)] else []
  }

  class RevocationHandler {
    const crypto: Crypto
    const disk: Disk
    const audit: AuditLog
    const registry: SessionRegistry.Registry
    const hostDeviceId: Bytes

    constructor (crypto: Crypto, disk: Disk, audit: AuditLog, registry: SessionRegistry.Registry, hostDeviceId: Bytes)
      ensures this.crypto == crypto && this.disk == disk && this.audit == audit && this.registry == registry
      ensures this.hostDeviceId == hostDeviceId
    {
      this.crypto, this.disk, this.audit, this.registry, this.hostDeviceId := crypto, disk, audit, registry, hostDeviceId;
    }

    /** A request that fails a check touches nothing; one that passes them all ends as `LockedOutcome` says. */
    method Apply(body: Body, peer: PinnedPeer, peerDeviceId: Bytes, nowMs: i64)
      returns (r: Result<Applied, Refusal>)
      modifies disk, audit
      ensures var verdict := VerifyRevocation(crypto, body, peer, peerDeviceId, hostDeviceId, nowMs);
              if verdict.Err? then
                r == Err(Rejected(verdict.error)) && disk.content == old(disk.content)
              else
                LockedOutcome(crypto, old(disk.content), disk.content, body, peer, nowMs, r)
      ensures audit.records == old(audit.records) + Logged(r)
      ensures true !in old(disk.faults) ==> r != Err(NotApplied(Io))
    {
      var verdict := VerifyRevocation(crypto, body, peer, peerDeviceId, hostDeviceId, nowMs);
      if verdict.Err? {
        return Err(Rejected(verdict.error));
      }
      r := RemovePin(peer, body, nowMs);
    }

    /** Runs under the handler's write lock. */
    method RemovePin(peer: PinnedPeer, body: Body, nowMs: i64) returns (r: Result<Applied, Refusal>)
      modifies disk, audit
      ensures LockedOutcome(crypto, old(disk.content), disk.content, body, peer, nowMs, r)
      ensures audit.records == old(audit.records) + Logged(r)
      ensures true !in old(disk.faults) ==> r != Err(NotApplied(Io))
    {
      var loaded := HostState.Load(crypto, disk);
      if loaded.Err? {
        return Err(NotApplied(loaded.error));
      }
      var state := loaded.value;
      var isNew := state.ConsumeRevocationNonce(body.nonce, body.issuedAtMs, nowMs, REVOKE_CLOCK_WINDOW_MS);
      if isNew.Err? {
        return Err(NotApplied(isNew.error));
      }
      if !isNew.value {
        return Err(Rejected(ReplayedNonce));
      }
      var removed := state.RemovePeers(Selector(crypto, peer));
      if removed.Err? {
        return Err(NotApplied(removed.error));
      }
      var audited := audit.Record(Unpaired(FingerprintOf(crypto, peer), Peer));
      return Ok(Applied(FingerprintOf(crypto, peer), |removed.value|, audited));
    }

    /** Hang up on every live session with this peer. */
    method ClosePeerSessions(peer: PinnedPeer) returns (closed: nat)
      requires registry.Valid()
      modifies registry.Sockets()
      ensures registry.Valid()
      ensures registry.Table()
           == SessionRegistry.CloseMatching(old(registry.Table()), SessionRegistry.IsPeer(FingerprintOf(crypto, peer)))
    {
      closed := registry.RevokeIdentity(FingerprintOf(crypto, peer));
    }
  }
}
