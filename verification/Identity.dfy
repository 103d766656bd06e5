/** Identity keys, the session keys they vouch for, and what a peer pins. */
module Identity {
  import opened Wrappers

  datatype Algorithm = Ed25519 | P256 | Unknown(name: string)

  /** The cryptography this build relies on: signature verification and the fingerprint hash. */
  datatype Crypto = Crypto(
    signs: (Algorithm, Bytes, Bytes, Bytes) -> bool,
    hash: (Algorithm, Bytes) -> Bytes)

  /** Fingerprints are 32 bytes and name one identity each. */
  ghost predicate CollisionFree(crypto: Crypto) {
    && (forall a: Algorithm, k: Bytes {:trigger crypto.hash(a, k)} :: |crypto.hash(a, k)| == 32)
    && (forall a: Algorithm, k: Bytes, b: Algorithm, l: Bytes {:trigger crypto.hash(a, k), crypto.hash(b, l)} ::
          crypto.hash(a, k) == crypto.hash(b, l) ==> a == b && k == l)
  }

  const MAX_SIGNATURE_LEN: nat := 128

  /** ASCII of `osprey/cross-cert/noise-static/v1`. */
  const CROSS_SIG_CONTEXT: Bytes :=
    [111, 115, 112, 114, 101, 121, 47, 99, 114, 111, 115, 115, 45, 99, 101, 114, 116, 47,
     110, 111, 105, 115, 101, 45, 115, 116, 97, 116, 105, 99, 47, 118, 49]

  datatype PublicIdentity = PublicIdentity(
    algorithm: Algorithm, identityPub: Bytes, noiseStaticPub: Bytes, noiseStaticSig: Bytes)

  datatype PinnedPeer = PinnedPeer(
    algorithm: Algorithm, identityPub: Bytes, noiseStaticPub: Bytes, noiseStaticSig: Bytes)

  datatype IdentityError = BadIdentityKey | BadSignature | UnpinnedPeer

  predicate VerifyIdentitySignature(crypto: Crypto, algorithm: Algorithm, key: Bytes, message: Bytes, signature: Bytes) {
    |signature| <= MAX_SIGNATURE_LEN && !algorithm.Unknown? && crypto.signs(algorithm, key, message, signature)
  }

  function ExpectedKeyLen(algorithm: Algorithm): Option<nat> {
    match algorithm
    case Ed25519 => Some(32)
    case P256 => Some(65)
    case Unknown(_) => None
  }

  function CrossSigMessage(identityPub: Bytes, noiseStaticPub: Bytes): Bytes {
    CROSS_SIG_CONTEXT + identityPub + noiseStaticPub
  }

  /** Under one algorithm's key length, the signed message determines both keys without a length prefix. */
  lemma CrossSigMessageInjective(a: Bytes, s: Bytes, b: Bytes, t: Bytes)
    requires |a| == |b| && CrossSigMessage(a, s) == CrossSigMessage(b, t)
    ensures a == b && s == t
  {
    var n := |CROSS_SIG_CONTEXT|;
    assert CrossSigMessage(a, s)[n..n + |a|] == a && CrossSigMessage(b, t)[n..n + |a|] == b;
    assert CrossSigMessage(a, s)[n + |a|..] == s && CrossSigMessage(b, t)[n + |a|..] == t;
  }

  function VerifyCrossSignature(crypto: Crypto, algorithm: Algorithm, identityPub: Bytes,
                                noiseStaticPub: Bytes, signature: Bytes): Result<(), IdentityError>
  {
    if ExpectedKeyLen(algorithm).Some? && |identityPub| != ExpectedKeyLen(algorithm).value then Err(BadIdentityKey)
    else if VerifyIdentitySignature(crypto, algorithm, identityPub, CrossSigMessage(identityPub, noiseStaticPub), signature)
    then Ok(())
    else Err(BadSignature)
  }

  function Verify(crypto: Crypto, pin: PinnedPeer): Result<(), IdentityError> {
    VerifyCrossSignature(crypto, pin.algorithm, pin.identityPub, pin.noiseStaticPub, pin.noiseStaticSig)
  }

  /** A first pinning keeps exactly the keys presented, and only if they verify. */
  function PinPeer(crypto: Crypto, p: PublicIdentity): (r: Result<PinnedPeer, IdentityError>)
    ensures r.Ok? ==> Verify(crypto, r.value).Ok?
    ensures r.Ok? ==> r.value == PinnedPeer(p.algorithm, p.identityPub, p.noiseStaticPub, p.noiseStaticSig)
  {
    match VerifyCrossSignature(crypto, p.algorithm, p.identityPub, p.noiseStaticPub, p.noiseStaticSig)
    case Ok(_) => Ok(PinnedPeer(p.algorithm, p.identityPub, p.noiseStaticPub, p.noiseStaticSig))
    case Err(error) => Err(error)
  }

  function FingerprintOf(crypto: Crypto, pin: PinnedPeer): Bytes {
    crypto.hash(pin.algorithm, pin.identityPub)
  }

  /** Accept a rotated static: only for the pinned identity, and only if that identity signed it. */
  function AcceptStatic(crypto: Crypto, pin: PinnedPeer, p: PublicIdentity): (r: Result<PinnedPeer, IdentityError>)
    ensures r.Ok? <==> (&& p.algorithm == pin.algorithm && p.identityPub == pin.identityPub
                        && PinPeer(crypto, p).Ok?)
    ensures r.Ok? ==> FingerprintOf(crypto, r.value) == FingerprintOf(crypto, pin)
                      && Verify(crypto, r.value).Ok? && r.value.noiseStaticPub == p.noiseStaticPub
  {
    if p.algorithm != pin.algorithm || p.identityPub != pin.identityPub then Err(UnpinnedPeer)
    else
      match VerifyCrossSignature(crypto, pin.algorithm, pin.identityPub, p.noiseStaticPub, p.noiseStaticSig)
      case Ok(_) => Ok(pin.(noiseStaticPub := p.noiseStaticPub, noiseStaticSig := p.noiseStaticSig))
      case Err(error) => Err(error)
  }

  // ---- Fingerprints as text ------------------------------------------------

  const HEX: string := "0123456789abcdef"

  lemma HexDigitsDistinct(i: nat, j: nat)
    requires i < j < 16
    ensures HEX[i] != HEX[j]
  {
  }

  lemma SameDigit(i: nat, j: nat)
    requires i < 16 && j < 16 && HEX[i] == HEX[j]
    ensures i == j
  {
    if i < j {
      HexDigitsDistinct(i, j);
    } else if j < i {
      HexDigitsDistinct(j, i);
    }
  }

  function HexByte(x: byte): (s: string)
    ensures |s| == 2
  {
    [HEX[x / 16], HEX[x % 16]]
  }

  lemma HexByteInjective(x: byte, y: byte)
    requires HexByte(x) == HexByte(y)
    ensures x == y
  {
    assert HexByte(x)[0] == HexByte(y)[0] && HexByte(x)[1] == HexByte(y)[1];
    SameDigit(x / 16, y / 16);
    SameDigit(x % 16, y % 16);
  }

  function HexEncode(b: Bytes): (s: string)
    ensures |s| == 2 * |b|
  {
    if b == [] then "" else HexByte(b[0]) + HexEncode(b[1..])
  }

  /** A text of the same length that begins with another is that text, byte for byte. */
  lemma {:induction false} HexPrefixIsEquality(a: Bytes, b: Bytes)
    requires |a| == |b| && HexEncode(a) <= HexEncode(b)
    ensures a == b
  {
    if a != [] {
      var s, t := HexEncode(a), HexEncode(b);
      assert s == t;
      assert s[..2] == HexByte(a[0]) && s[2..] == HexEncode(a[1..]);
      assert t[..2] == HexByte(b[0]) && t[2..] == HexEncode(b[1..]);
      hide HexEncode;
      hide HexByte;
      HexByteInjective(a[0], b[0]);
      HexPrefixIsEquality(a[1..], b[1..]);
      assert a == [a[0]] + a[1..] && b == [b[0]] + b[1..];
    }
  }
}
