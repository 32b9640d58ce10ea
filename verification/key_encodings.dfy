/** Three byte strings of the key-provisioning protocol that are lists of segments: the
    associated data, the wire digest input and the proof input. */
module KeyEncodings {
  import opened Wrappers
  import opened CanonicalEncoding
  import opened SegmentReader

  // ---- segment lists ----

  datatype EnvelopeAad = EnvelopeAad(
    format: nat, suite: nat, purpose: nat, version: nat, rootVersion: nat, recipientDigest: seq<byte>,
    requestId: seq<byte>, domain: seq<byte>, keyId: seq<byte>, derivation: seq<byte>)

  datatype EnvelopeDigest = EnvelopeDigest(
    format: nat, requestId: seq<byte>, domain: seq<byte>, purpose: nat, keyId: seq<byte>, version: nat,
    suite: nat, wrappedKey: seq<byte>, parameters: seq<byte>)

  datatype ProofInput = ProofInput(
    requestId: seq<byte>, domain: seq<byte>, purpose: nat, keyId: seq<byte>, version: nat,
    envelopeDigest: seq<byte>, kcv: seq<byte>)

  function Ascii(s: string): (r: seq<byte>)
    requires forall i :: 0 <= i < |s| ==> s[i] as int < 256
    ensures |r| == |s|
  {
    seq(|s|, i requires 0 <= i < |s| => s[i] as int)
  }

  function AadContents(a: EnvelopeAad): seq<seq<byte>> {
    [Varint(a.format), Varint(a.suite), Varint(a.purpose), U64(a.version), U64(a.rootVersion), a.recipientDigest,
     a.requestId, a.domain, a.keyId, a.derivation]
  }

  function DigestContents(d: EnvelopeDigest): seq<seq<byte>> {
    [Varint(d.format), d.requestId, d.domain, Varint(d.purpose), d.keyId, U64(d.version), Varint(d.suite),
     d.wrappedKey, d.parameters]
  }

  const PROOF_CONTEXT := "openiov|keyprov-ack|v1"

  /** The hash, given as `sha`, of the key id goes in, not the key id. */
  function ProofContents(p: ProofInput, sha: seq<byte> -> seq<byte>): seq<seq<byte>> {
    [Ascii(PROOF_CONTEXT), p.requestId, p.domain, Varint(p.purpose), sha(p.keyId), U64(p.version),
     p.envelopeDigest, p.kcv]
  }

  // ---- what a receiver reads, field by field in the order of the protocol ----

  function ReceiveAad(bytes: seq<byte>): Option<EnvelopeAad> {
    var all := ReadAll(bytes);
    if all.None? || |all.value| != 10 then None
    else
      var s := all.value;
      var format, suite, purpose := VarintIn(s[0]), VarintIn(s[1]), VarintIn(s[2]);
      var version, rootVersion := IntegerIn(s[3]), IntegerIn(s[4]);
      if format.None? || suite.None? || purpose.None? || version.None? || rootVersion.None? then None
      else
        var (recipientDigest, requestId, domain, keyId, derivation) := (s[5], s[6], s[7], s[8], s[9]);
        Some(EnvelopeAad(format.value, suite.value, purpose.value, version.value, rootVersion.value, recipientDigest,
                         requestId, domain, keyId, derivation))
  }

  function ReceiveDigest(bytes: seq<byte>): Option<EnvelopeDigest> {
    var all := ReadAll(bytes);
    if all.None? || |all.value| != 9 then None
    else
      var s := all.value;
      var format, purpose, version, suite := VarintIn(s[0]), VarintIn(s[3]), IntegerIn(s[5]), VarintIn(s[6]);
      if format.None? || purpose.None? || version.None? || suite.None? then None
      else
        var (requestId, domain, keyId, wrappedKey, parameters) := (s[1], s[2], s[4], s[7], s[8]);
        Some(EnvelopeDigest(format.value, requestId, domain, purpose.value, keyId, version.value, suite.value,
                            wrappedKey, parameters))
  }

  /** The key id comes out as its hash. */
  function ReceiveProof(bytes: seq<byte>): Option<ProofInput> {
    var all := ReadAll(bytes);
    if all.None? || |all.value| != 8 || all.value[0] != Ascii("openiov|keyprov-ack|v1") then None
    else
      var s := all.value;
      var purpose, version := VarintIn(s[3]), IntegerIn(s[5]);
      if purpose.None? || version.None? then None
      else
        var (requestId, domain, keyIdHash, envelopeDigest, kcv) := (s[1], s[2], s[4], s[6], s[7]);
        Some(ProofInput(requestId, domain, purpose.value, keyIdHash, version.value, envelopeDigest, kcv))
  }

  lemma AadReceived(a: EnvelopeAad)
    requires AadSized(a)
    ensures ReceiveAad(Segments(AadContents(a))) == Some(a)
  {
    hide Segments, ReadAll, Varint, BigEndian, VarintIn, IntegerIn;
    VarintShort(a.format);
    VarintShort(a.suite);
    VarintShort(a.purpose);
    SegmentsBack(AadContents(a));
    VarintInBack(a.format);
    VarintInBack(a.suite);
    VarintInBack(a.purpose);
    IntegerInBack(a.version);
    IntegerInBack(a.rootVersion);
  }

  lemma DigestReceived(d: EnvelopeDigest)
    requires DigestSized(d)
    ensures ReceiveDigest(Segments(DigestContents(d))) == Some(d)
  {
    hide Segments, ReadAll, Varint, BigEndian, VarintIn, IntegerIn;
    VarintShort(d.format);
    VarintShort(d.suite);
    VarintShort(d.purpose);
    SegmentsBack(DigestContents(d));
    VarintInBack(d.format);
    VarintInBack(d.purpose);
    VarintInBack(d.suite);
    IntegerInBack(d.version);
  }

  lemma ProofReceived(p: ProofInput, sha: seq<byte> -> seq<byte>)
    requires ProofSized(p, sha)
    ensures ReceiveProof(Segments(ProofContents(p, sha))) == Some(p.(keyId := sha(p.keyId)))
  {
    hide Segments, ReadAll, Varint, BigEndian, VarintIn, IntegerIn, Ascii;
    VarintShort(p.purpose);
    assert |Ascii(PROOF_CONTEXT)| == |PROOF_CONTEXT| == 22;
    SegmentsBack(ProofContents(p, sha));
    VarintInBack(p.purpose);
    IntegerInBack(p.version);
  }

  lemma OneMore(all: seq<seq<byte>>, k: nat)
    requires k < |all|
    ensures Segments(all[..k + 1]) == Segments(all[..k]) + LengthPrefixed(all[k])
  {
    SegmentsConcat(all[..k], [all[k]]);
    var last: seq<seq<byte>> := [all[k]];
    assert all[..k + 1] == all[..k] + last && last[1..] == [];
    assert Segments(last) == LengthPrefixed(all[k]) + Segments([]);
  }

  /** A buffer that has taken the first `k` segments of `all` takes the next one. */
  method AppendSegment(out: ByteBuffer, next: seq<byte>, ghost all: seq<seq<byte>>, ghost k: nat)
    requires k < |all| && all[k] == next && out.bytes == Segments(all[..k])
    modifies out
    ensures out.bytes == Segments(all[..k + 1])
  {
    out.AppendLengthPrefixed(next);
    OneMore(all, k);
  }

  method AppendEnum(out: ByteBuffer, v: nat, ghost all: seq<seq<byte>>, ghost k: nat)
    requires v < TWO64 && k < |all| && all[k] == Varint(v) && out.bytes == Segments(all[..k])
    modifies out
    ensures out.bytes == Segments(all[..k + 1])
  {
    out.AppendEnumSegment(v);
    OneMore(all, k);
  }

  method AppendInteger(out: ByteBuffer, v: nat, ghost all: seq<seq<byte>>, ghost k: nat)
    requires v < TWO64 && k < |all| && all[k] == U64(v) && out.bytes == Segments(all[..k])
    modifies out
    ensures out.bytes == Segments(all[..k + 1])
  {
    out.AppendUint64beSegment(v);
    OneMore(all, k);
  }

  ghost predicate FitsU64(v: nat) { v < TWO64 }

  ghost predicate AadSized(a: EnvelopeAad) {
    && FitsU64(a.format) && FitsU64(a.suite) && FitsU64(a.purpose) && FitsU64(a.version) && FitsU64(a.rootVersion)
    && |a.recipientDigest| < TWO32 && |a.requestId| < TWO32 && |a.domain| < TWO32 && |a.keyId| < TWO32
    && |a.derivation| < TWO32
  }

  method BuildParProtoAadV1(a: EnvelopeAad) returns (bytes: seq<byte>)
    requires AadSized(a)
    ensures bytes == Segments(AadContents(a))
    ensures ReceiveAad(bytes) == Some(a)
  {
    hide Segments, Varint, BigEndian, ReceiveAad, LengthPrefixed;
    AadReceived(a);
    ghost var c := AadContents(a);
    var buf := new ByteBuffer();
    assert buf.bytes == Segments(c[..0]) by { NoSegments(); }
    AppendEnum(buf, a.format, c, 0);
    AppendEnum(buf, a.suite, c, 1);
    AppendEnum(buf, a.purpose, c, 2);
    AppendInteger(buf, a.version, c, 3);
    AppendInteger(buf, a.rootVersion, c, 4);
    AppendSegment(buf, a.recipientDigest, c, 5);
    AppendSegment(buf, a.requestId, c, 6);
    AppendSegment(buf, a.domain, c, 7);
    AppendSegment(buf, a.keyId, c, 8);
    AppendSegment(buf, a.derivation, c, 9);
    assert c[..|c|] == c;
    bytes := buf.bytes;
  }

  lemma NoSegments()
    ensures Segments([]) == []
  {
  }

  ghost predicate DigestSized(d: EnvelopeDigest) {
    && FitsU64(d.format) && FitsU64(d.purpose) && FitsU64(d.version) && FitsU64(d.suite)
    && |d.requestId| < TWO32 && |d.domain| < TWO32 && |d.keyId| < TWO32 && |d.wrappedKey| < TWO32
    && |d.parameters| < TWO32
  }

  method BuildWireEnvelopeDigestInput(d: EnvelopeDigest) returns (bytes: seq<byte>)
    requires DigestSized(d)
    ensures bytes == Segments(DigestContents(d))
    ensures ReceiveDigest(bytes) == Some(d)
  {
    hide Segments, Varint, BigEndian, ReceiveDigest, LengthPrefixed;
    DigestReceived(d);
    ghost var c := DigestContents(d);
    var buf := new ByteBuffer();
    assert buf.bytes == Segments(c[..0]) by { NoSegments(); }
    AppendEnum(buf, d.format, c, 0);
    AppendSegment(buf, d.requestId, c, 1);
    AppendSegment(buf, d.domain, c, 2);
    AppendEnum(buf, d.purpose, c, 3);
    AppendSegment(buf, d.keyId, c, 4);
    AppendInteger(buf, d.version, c, 5);
    AppendEnum(buf, d.suite, c, 6);
    AppendSegment(buf, d.wrappedKey, c, 7);
    AppendSegment(buf, d.parameters, c, 8);
    assert c[..|c|] == c;
    bytes := buf.bytes;
  }

  ghost predicate ProofSized(p: ProofInput, sha: seq<byte> -> seq<byte>) {
    && FitsU64(p.purpose) && FitsU64(p.version) && |p.requestId| < TWO32 && |p.domain| < TWO32
    && |sha(p.keyId)| < TWO32 && |p.envelopeDigest| < TWO32 && |p.kcv| < TWO32
  }

  method BuildProofInput(p: ProofInput, sha: seq<byte> -> seq<byte>) returns (bytes: seq<byte>)
    requires ProofSized(p, sha)
    ensures bytes == Segments(ProofContents(p, sha))
    ensures ReceiveProof(bytes) == Some(p.(keyId := sha(p.keyId)))
  {
    hide Segments, Varint, BigEndian, ReceiveProof, LengthPrefixed;
    ProofReceived(p, sha);
    ghost var c := ProofContents(p, sha);
    var buf := new ByteBuffer();
    assert buf.bytes == Segments(c[..0]) by { NoSegments(); }
    AppendSegment(buf, Ascii(PROOF_CONTEXT), c, 0);
    AppendSegment(buf, p.requestId, c, 1);
    AppendSegment(buf, p.domain, c, 2);
    AppendEnum(buf, p.purpose, c, 3);
    AppendSegment(buf, sha(p.keyId), c, 4);
    AppendInteger(buf, p.version, c, 5);
    AppendSegment(buf, p.envelopeDigest, c, 6);
    AppendSegment(buf, p.kcv, c, 7);
    assert c[..|c|] == c;
    bytes := buf.bytes;
  }

  // ---- the fields can be read back ----

  function Pow128(n: nat): nat { if n == 0 then 1 else 128 * Pow128(n - 1) }

  lemma {:induction false} VarintLength(v: nat, n: nat)
    requires n >= 1 && v < Pow128(n)
    ensures |Varint(v)| <= n
    decreases n
  {
    if v >= 128 { VarintLength(v / 128, n - 1); }
  }

  lemma VarintShort(v: nat)
    requires v < TWO64
    ensures |Varint(v)| < TWO32
  {
    assert Pow128(2) == 16384;
    assert Pow128(4) == 268435456;
    assert Pow128(6) == 4398046511104;
    assert Pow128(8) == 72057594037927936;
    assert Pow128(10) >= TWO64;
    VarintLength(v, 10);
  }

  lemma VarintInjective(a: nat, b: nat)
    requires Varint(a) == Varint(b)
    ensures a == b
  {
    assert Varint(a) + [] == Varint(b) + [];
    VarintUnique(a, b, [], []);
  }

  lemma U64Injective(a: nat, b: nat)
    requires a < TWO64 && b < TWO64 && U64(a) == U64(b)
    ensures a == b
  {
    assert U64(a) + [] == U64(b) + [];
    U64Unique(a, b, [], []);
  }

  /** Two sets of ten fields with the same associated data are the same. */
  lemma AadInjective(a: EnvelopeAad, b: EnvelopeAad)
    requires AadSized(a) && AadSized(b) && Segments(AadContents(a)) == Segments(AadContents(b))
    ensures a == b
  {
    hide Segments, Varint, BigEndian;
    VarintShort(a.format); VarintShort(a.suite); VarintShort(a.purpose);
    VarintShort(b.format); VarintShort(b.suite); VarintShort(b.purpose);
    var c, d := AadContents(a), AadContents(b);
    SegmentsUnique(c, d);
    assert forall i :: 0 <= i < 10 ==> c[i] == d[i];
    VarintInjective(a.format, b.format);
    VarintInjective(a.suite, b.suite);
    VarintInjective(a.purpose, b.purpose);
    U64Injective(a.version, b.version);
    U64Injective(a.rootVersion, b.rootVersion);
  }

  lemma DigestInputInjective(a: EnvelopeDigest, b: EnvelopeDigest)
    requires DigestSized(a) && DigestSized(b) && Segments(DigestContents(a)) == Segments(DigestContents(b))
    ensures a == b
  {
    hide Segments, Varint, BigEndian;
    VarintShort(a.format); VarintShort(a.suite); VarintShort(a.purpose);
    VarintShort(b.format); VarintShort(b.suite); VarintShort(b.purpose);
    var c, d := DigestContents(a), DigestContents(b);
    SegmentsUnique(c, d);
    assert forall i :: 0 <= i < 9 ==> c[i] == d[i];
    VarintInjective(a.format, b.format);
    VarintInjective(a.suite, b.suite);
    VarintInjective(a.purpose, b.purpose);
    U64Injective(a.version, b.version);
  }

  /** Two proof inputs with the same bytes agree on every field, the key id included unless two
      key ids have the same hash. */
  lemma ProofInputInjective(a: ProofInput, b: ProofInput, sha: seq<byte> -> seq<byte>)
    requires ProofSized(a, sha) && ProofSized(b, sha)
    ensures Segments(ProofContents(a, sha)) == Segments(ProofContents(b, sha)) <==>
            sha(a.keyId) == sha(b.keyId) && a == b.(keyId := a.keyId)
  {
    hide Segments, Varint, BigEndian;
    VarintShort(a.purpose);
    VarintShort(b.purpose);
    var c, d := ProofContents(a, sha), ProofContents(b, sha);
    if Segments(c) == Segments(d) {
      SegmentsUnique(c, d);
      assert forall i :: 0 <= i < 8 ==> c[i] == d[i];
      VarintInjective(a.purpose, b.purpose);
      U64Injective(a.version, b.version);
    }
  }

  /** No byte string is at once associated data, a digest input or a proof input. */
  lemma KindsDisjoint(a: EnvelopeAad, d: EnvelopeDigest, p: ProofInput, sha: seq<byte> -> seq<byte>)
    requires AadSized(a) && DigestSized(d) && ProofSized(p, sha)
    ensures Segments(AadContents(a)) != Segments(DigestContents(d))
    ensures Segments(AadContents(a)) != Segments(ProofContents(p, sha))
    ensures Segments(DigestContents(d)) != Segments(ProofContents(p, sha))
  {
    hide Segments, Varint, BigEndian;
    VarintShort(a.format); VarintShort(a.suite); VarintShort(a.purpose);
    VarintShort(d.format); VarintShort(d.suite); VarintShort(d.purpose);
    VarintShort(p.purpose);
    if Segments(AadContents(a)) == Segments(DigestContents(d)) { SegmentsUnique(AadContents(a), DigestContents(d)); }
    if Segments(AadContents(a)) == Segments(ProofContents(p, sha)) {
      SegmentsUnique(AadContents(a), ProofContents(p, sha));
    }
    if Segments(DigestContents(d)) == Segments(ProofContents(p, sha)) {
      SegmentsUnique(DigestContents(d), ProofContents(p, sha));
    }
  }
}
