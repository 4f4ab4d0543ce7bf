// Pinned device records and the registry that holds them
// (protocol/src/v1.rs and hook/src/registry.rs).
module Records {
  import opened Prelude

  const MAX_DEVICES: nat := 8
  const VERSION: nat := 1
  const FINGERPRINT_DOMAIN: Bytes := "oshioki/fingerprint/v1\0"

  type Fingerprint = Bytes

  datatype DeviceKind = Webauthn | Software | SecureEnclave

  datatype Record = Record(
    version: nat,
    kind: DeviceKind,
    fingerprint: Fingerprint,
    credentialId: Bytes,
    publicKey: Bytes,
    boxKey: Bytes,
    name: string,
    tokenHash: Bytes,
    signCount: nat,
    active: bool)

  /** The registry as the hook keeps it: the pinned devices and the local revocation epoch. */
  datatype Registry = Registry(devices: seq<Record>, epoch: nat)

  const EMPTY_REGISTRY: Registry := Registry([], 0)

  /** A COSE key is a CBOR map, so its first byte has major type 5. */
  predicate IsCoseKey(key: Bytes) {
    key != [] && 0xA0 <= key[0] as int <= 0xBF
  }

  /** An uncompressed P-256 point. */
  predicate IsSec1Key(key: Bytes) {
    |key| == 65 && key[0] as int == 4
  }

  /** What the fingerprint hash is fed: both variable-length fields carry their length. */
  function FingerprintPreimage(credentialId: Bytes, publicKey: Bytes, boxKey: Bytes): Bytes {
    FINGERPRINT_DOMAIN
    + BigEndian(|credentialId|, 8) + credentialId
    + BigEndian(|publicKey|, 8) + publicKey
    + boxKey
  }

  function DeviceFingerprint(credentialId: Bytes, publicKey: Bytes, boxKey: Bytes): Fingerprint {
    Sha256(FingerprintPreimage(credentialId, publicKey, boxKey))
  }

  function NativeCredentialId(publicKey: Bytes): Bytes {
    Sha256(publicKey)
  }

  predicate ValidRecord(d: Record) {
    && d.version == VERSION
    && 0 < |d.credentialId| <= U64_MAX
    && 0 < |d.publicKey| <= U64_MAX
    && |d.boxKey| == 32
    && |d.tokenHash| == 32
    && 0 < |d.name| <= 128
    && d.signCount <= U32_MAX
    && (match d.kind
        case Webauthn => IsCoseKey(d.publicKey)
        case _ =>
          && IsSec1Key(d.publicKey)
          && d.credentialId == NativeCredentialId(d.publicKey)
          && d.signCount == 0)
    && d.fingerprint == DeviceFingerprint(d.credentialId, d.publicKey, d.boxKey)
  }

  predicate Distinct(ds: seq<Record>) {
    && (forall i, j :: 0 <= i < j < |ds| ==> ds[i].fingerprint != ds[j].fingerprint)
    && (forall i, j :: 0 <= i < j < |ds| ==> ds[i].credentialId != ds[j].credentialId)
  }

  predicate ValidRegistry(r: Registry) {
    && |r.devices| <= MAX_DEVICES
    && (forall d :: d in r.devices ==> ValidRecord(d))
    && Distinct(r.devices)
    && r.epoch <= U64_MAX
  }

  predicate SameCredential(a: Record, b: Record) {
    && a.version == b.version
    && a.kind == b.kind
    && a.fingerprint == b.fingerprint
    && a.credentialId == b.credentialId
    && a.publicKey == b.publicKey
    && a.boxKey == b.boxKey
  }

  predicate SameIdentity(a: Record, b: Record) {
    SameCredential(a, b) && a.tokenHash == b.tokenHash
  }

  /** Two records are one identity exactly when they differ at most in name, counter and activity. */
  lemma IdentityIff(a: Record, b: Record)
    ensures SameIdentity(a, b) <==> a.(name := b.name, signCount := b.signCount, active := b.active) == b
  {
  }

  /** The first record under a fingerprint. */
  function Stored(ds: seq<Record>, f: Fingerprint): Option<Record> {
    if ds == [] then None
    else if ds[0].fingerprint == f then Some(ds[0])
    else Stored(ds[1..], f)
  }

  /** `retain(|stored| stored.fingerprint != f)`. */
  function Without(ds: seq<Record>, f: Fingerprint): seq<Record> {
    if ds == [] then []
    else if ds[0].fingerprint == f then Without(ds[1..], f)
    else [ds[0]] + Without(ds[1..], f)
  }

  /** Rewrites the first record under a fingerprint in place. */
  function Replaced(ds: seq<Record>, f: Fingerprint, d: Record): seq<Record> {
    if ds == [] then []
    else if ds[0].fingerprint == f then [d] + ds[1..]
    else [ds[0]] + Replaced(ds[1..], f, d)
  }

  /** Keeping the head of a distinct list before records from its tail keeps it distinct. */
  lemma HeadStaysDistinct(ds: seq<Record>, rest: seq<Record>)
    requires ds != [] && Distinct(ds) && Distinct(rest) && forall d :: d in rest ==> d in ds[1..]
    ensures Distinct([ds[0]] + rest)
  {
    forall i | 0 <= i < |rest|
      ensures rest[i].fingerprint != ds[0].fingerprint && rest[i].credentialId != ds[0].credentialId
    {
      assert rest[i] in ds[1..];
      var j :| 0 <= j < |ds[1..]| && ds[1..][j] == rest[i];
      assert ds[j + 1] == rest[i];
    }
  }

  // ---- the fingerprint determines the key material ----

  /** The hash input can be read back one way only, so no two key sets share a fingerprint. */
  lemma FingerprintDeterminesKeys(a: Record, b: Record)
    requires ValidRecord(a) && ValidRecord(b) && a.fingerprint == b.fingerprint
    ensures a.credentialId == b.credentialId
    ensures a.publicKey == b.publicKey
    ensures a.boxKey == b.boxKey
    ensures a.kind == b.kind || (a.kind != Webauthn && b.kind != Webauthn)
    ensures a.kind != b.kind ==> a.signCount == 0 == b.signCount
  {
    Sha256Injective(FingerprintPreimage(a.credentialId, a.publicKey, a.boxKey),
                    FingerprintPreimage(b.credentialId, b.publicKey, b.boxKey));
    PreimageInjective(a.credentialId, a.publicKey, a.boxKey, b.credentialId, b.publicKey, b.boxKey);
  }

  lemma PreimageInjective(c: Bytes, k: Bytes, x: Bytes, c': Bytes, k': Bytes, x': Bytes)
    requires |c| <= U64_MAX && |k| <= U64_MAX && |c'| <= U64_MAX && |k'| <= U64_MAX
    requires FingerprintPreimage(c, k, x) == FingerprintPreimage(c', k', x')
    ensures c == c' && k == k' && x == x'
  {
    var tail := BigEndian(|k|, 8) + k + x;
    var tail' := BigEndian(|k'|, 8) + k' + x';
    var body := BigEndian(|c|, 8) + c + tail;
    var body' := BigEndian(|c'|, 8) + c' + tail';
    Regroup(FINGERPRINT_DOMAIN, BigEndian(|c|, 8), c, BigEndian(|k|, 8), k, x);
    Regroup(FINGERPRINT_DOMAIN, BigEndian(|c'|, 8), c', BigEndian(|k'|, 8), k', x');
    SameTail(FINGERPRINT_DOMAIN, body, body');
    LengthPrefixed(c, tail, c', tail', body, body');
    LengthPrefixed(k, x, k', x', tail, tail');
  }

  lemma Regroup(a: Bytes, b: Bytes, c: Bytes, d: Bytes, e: Bytes, f: Bytes)
    ensures a + b + c + d + e + f == a + (b + c + (d + e + f))
  {
  }

  lemma SameTail(p: Bytes, a: Bytes, b: Bytes)
    requires p + a == p + b
    ensures a == b
  {
    assert a == (p + a)[|p|..];
    assert b == (p + b)[|p|..];
  }

  lemma LengthPrefixed(a: Bytes, s: Bytes, b: Bytes, t: Bytes, x: Bytes, y: Bytes)
    requires |a| <= U64_MAX && |b| <= U64_MAX
    requires x == BigEndian(|a|, 8) + a + s
    requires y == BigEndian(|b|, 8) + b + t
    requires x == y
    ensures a == b && s == t
  {
    var p, q := BigEndian(|a|, 8), BigEndian(|b|, 8);
    SamePrefix(p, a, s, q, b, t);
    U64Injective(|a|, |b|);
    SameParts(p, a, s, q, b, t);
  }

  lemma SamePrefix(p: Bytes, a: Bytes, s: Bytes, q: Bytes, b: Bytes, t: Bytes)
    requires |p| == |q| && p + a + s == q + b + t
    ensures p == q
  {
    assert p == (p + a + s)[..|p|];
    assert q == (q + b + t)[..|q|];
  }

  lemma SameParts(p: Bytes, a: Bytes, s: Bytes, q: Bytes, b: Bytes, t: Bytes)
    requires |p| == |q| && |a| == |b| && p + a + s == q + b + t
    ensures a == b && s == t
  {
    assert a == (p + a + s)[|p|..|p| + |a|];
    assert b == (q + b + t)[|q|..|q| + |b|];
    assert s == (p + a + s)[|p| + |a|..];
    assert t == (q + b + t)[|q| + |b|..];
  }

  // ---- lookups after an edit ----

  lemma {:induction false} StoredIsMember(ds: seq<Record>, f: Fingerprint)
    ensures Stored(ds, f).Some? ==> Stored(ds, f).value in ds && Stored(ds, f).value.fingerprint == f
    ensures Stored(ds, f).None? ==> forall d :: d in ds ==> d.fingerprint != f
  {
    if ds != [] && ds[0].fingerprint != f {
      StoredIsMember(ds[1..], f);
      assert forall d :: d in ds ==> d == ds[0] || d in ds[1..];
    }
  }

  lemma {:induction false} MemberIsStored(ds: seq<Record>, d: Record)
    requires Distinct(ds) && d in ds
    ensures Stored(ds, d.fingerprint) == Some(d)
  {
    if d != ds[0] {
      assert d in ds[1..];
      var i :| 0 <= i < |ds| && ds[i] == d;
      assert ds[0].fingerprint != ds[i].fingerprint;
      MemberIsStored(ds[1..], d);
    }
  }

  lemma {:induction false} StoredWithout(ds: seq<Record>, f: Fingerprint, g: Fingerprint)
    ensures Stored(Without(ds, f), g) == if g == f then None else Stored(ds, g)
  {
    if ds != [] {
      StoredWithout(ds[1..], f, g);
      if ds[0].fingerprint != f {
        assert Without(ds, f)[1..] == Without(ds[1..], f);
      }
    }
  }

  lemma {:induction false} StoredAppended(ds: seq<Record>, d: Record, g: Fingerprint)
    ensures Stored(ds + [d], g) ==
            if Stored(ds, g).Some? then Stored(ds, g)
            else if d.fingerprint == g then Some(d) else None
  {
    if ds != [] {
      assert (ds + [d])[1..] == ds[1..] + [d];
      StoredAppended(ds[1..], d, g);
    }
  }

  lemma {:induction false} StoredReplaced(ds: seq<Record>, f: Fingerprint, d: Record, g: Fingerprint)
    requires d.fingerprint == f
    ensures Stored(Replaced(ds, f, d), g) ==
            if g == f && Stored(ds, f).Some? then Some(d) else Stored(ds, g)
  {
    if ds != [] {
      if ds[0].fingerprint == f {
        assert Replaced(ds, f, d)[1..] == ds[1..];
      } else {
        assert Replaced(ds, f, d)[1..] == Replaced(ds[1..], f, d);
        StoredReplaced(ds[1..], f, d, g);
      }
    }
  }
}
