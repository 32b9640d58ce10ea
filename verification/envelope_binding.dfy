/** The envelope check and what its comparisons establish: an accepted envelope fits only the
    context it was made for. Parsing the parameters, the curve-point check and the certificate
    and key capabilities are given by their outcomes. The digest is ideal: it is
    represented by the bytes that were hashed, or is a value that is no digest of anything
    this model hashes. */
module EnvelopeBinding {
  import opened Wrappers
  import opened CanonicalEncoding
  import opened KeyEncodings

  datatype Hash = Sha256(of: seq<byte>) | Arbitrary(bytes: seq<byte>)

  datatype Code = Success | Unsupported | WrappedKeyInvalid | NotReady

  const UPLINK := "UPLINK_AEAD"
  const DOWNLINK := "DOWNLINK_AEAD"
  const SUITE := "ECDH_ES_P256_HKDF_SHA256_AES256GCM"

  const ALGORITHM := "AES-256"
  const HKDF_CONTEXT := "v1"
  const MAX_AAD := 1024

  datatype Parameters = Parameters(
    formatVersion: nat, ephemeralKeyOnCurve: bool, hkdfSalt: seq<byte>, hkdfContext: seq<byte>, nonce: seq<byte>,
    authenticationTag: seq<byte>, canonicalAad: seq<byte>, aadDigest: Hash, rootVersion: nat, derivation: seq<byte>,
    recipientDigest: seq<byte>, operationId: seq<byte>)

  datatype Item = Item(
    purpose: seq<byte>, keyId: seq<byte>, version: nat, algorithm: seq<byte>, suite: seq<byte>, format: nat,
    wrappedKey: seq<byte>, parameters: seq<byte>, envelopeDigest: Hash)

  /** `capable` joins the certificate, key and template capabilities, all of which are needed. */
  datatype Context = Context(requestId: seq<byte>, domain: seq<byte>, certDigest: seq<byte>, capable: bool)

  datatype Limits = Limits(maxParameters: nat, maxWrappedKey: nat)

  /** A SHA-256 digest has 32 bytes. */
  function HashSize(h: Hash): nat { if h.Sha256? then 32 else |h.bytes| }

  function PurposeEnumValue(purpose: seq<byte>): Option<nat> {
    if purpose == Ascii(UPLINK) then Some(1) else if purpose == Ascii(DOWNLINK) then Some(2) else None
  }

  function SuiteEnumValue(suite: seq<byte>): Option<nat> { if suite == Ascii(SUITE) then Some(2) else None }

  function OrZero(v: Option<nat>): nat { if v.Some? then v.value else 0 }

  /** An unknown purpose or suite is rebuilt as zero. */
  function RebuiltAad(requestId: seq<byte>, domain: seq<byte>, it: Item, ps: Parameters): EnvelopeAad {
    EnvelopeAad(it.format, OrZero(SuiteEnumValue(it.suite)), OrZero(PurposeEnumValue(it.purpose)), it.version,
                ps.rootVersion, ps.recipientDigest, requestId, domain, it.keyId, ps.derivation)
  }

  function WireDigest(ctx: Context, it: Item): EnvelopeDigest {
    EnvelopeDigest(it.format, ctx.requestId, ctx.domain, OrZero(PurposeEnumValue(it.purpose)), it.keyId, it.version,
                   OrZero(SuiteEnumValue(it.suite)), it.wrappedKey, it.parameters)
  }

  ghost predicate Sized(ctx: Context, it: Item, ps: Parameters) {
    AadSized(RebuiltAad(ctx.requestId, ctx.domain, it, ps)) && DigestSized(WireDigest(ctx, it))
  }

  /** The envelope validation, check by check in order; `parsed` is what the parameter bytes
      parse to, if they do. Whatever is neither accepted nor told by one of the two other codes
      is WrappedKeyInvalid. */
  method ValidateEnvelope(ctx: Context, limits: Limits, it: Item, parsed: Option<Parameters>) returns (rc: Code)
    requires parsed.Some? ==> Sized(ctx, it, parsed.value)
    ensures rc == Success <==> parsed.Some? && InLimits(limits, it, parsed.value) && Accepted(ctx, it, parsed.value)
    ensures rc == NotReady <==>
      Profiled(it) && parsed.Some? && InLimits(limits, it, parsed.value) && !ctx.capable
    ensures rc == Unsupported <==>
      || !Profiled(it)
      || (parsed.Some? && WrongHkdfContext(limits, it, parsed.value))
      || (parsed.Some? && InLimits(limits, it, parsed.value) && ctx.capable && ForUnknownPurpose(ctx, it, parsed.value))
  {
    hide Segments, Varint, BigEndian, Ascii;
    if it.format != 1 { return Unsupported; }
    if SuiteEnumValue(it.suite).None? { return Unsupported; }
    if it.algorithm != Ascii(ALGORITHM) { return Unsupported; }
    if it.parameters == [] { return WrappedKeyInvalid; }
    if |it.parameters| > limits.maxParameters { return WrappedKeyInvalid; }
    if parsed.None? { return WrappedKeyInvalid; }
    var ps := parsed.value;
    if ps.formatVersion != 1 { return WrappedKeyInvalid; }
    if ps.hkdfContext != Ascii(HKDF_CONTEXT) { return Unsupported; }
    if it.wrappedKey == [] || |it.wrappedKey| > limits.maxWrappedKey { return WrappedKeyInvalid; }
    if |ps.canonicalAad| > MAX_AAD { return WrappedKeyInvalid; }
    if |ps.hkdfSalt| != 32 { return WrappedKeyInvalid; }
    if |ps.nonce| != 12 { return WrappedKeyInvalid; }
    if |ps.authenticationTag| != 16 { return WrappedKeyInvalid; }
    if HashSize(ps.aadDigest) != 32 { return WrappedKeyInvalid; }
    if |ps.recipientDigest| != 32 { return WrappedKeyInvalid; }
    if !ps.ephemeralKeyOnCurve { return WrappedKeyInvalid; }
    if !ctx.capable { return NotReady; }
    rc := CheckBinding(ctx, it, ps);
  }

  /** The one format, suite and algorithm this service implements. */
  ghost predicate Profiled(it: Item) {
    it.format == 1 && it.suite == Ascii(SUITE) && it.algorithm == Ascii(ALGORITHM)
  }

  /** Readable parameters of the one version, made for another derivation context. */
  ghost predicate WrongHkdfContext(limits: Limits, it: Item, ps: Parameters) {
    1 <= |it.parameters| <= limits.maxParameters && ps.formatVersion == 1 && ps.hkdfContext != Ascii(HKDF_CONTEXT)
  }

  /** Versions, lengths and the curve point are as the profile wants them. */
  ghost predicate InLimits(limits: Limits, it: Item, ps: Parameters) {
    && 1 <= |it.parameters| <= limits.maxParameters && 1 <= |it.wrappedKey| <= limits.maxWrappedKey
    && ps.formatVersion == 1 && ps.hkdfContext == Ascii(HKDF_CONTEXT) && |ps.canonicalAad| <= MAX_AAD
    && |ps.hkdfSalt| == 32 && |ps.nonce| == 12 && |ps.authenticationTag| == 16 && |ps.recipientDigest| == 32
    && HashSize(ps.aadDigest) == 32 && ps.ephemeralKeyOnCurve
  }

  /** The comparisons of recomputed with received bytes, and the checks after them. */
  method CheckBinding(ctx: Context, it: Item, ps: Parameters) returns (rc: Code)
    requires Sized(ctx, it, ps) && ctx.capable && Profiled(it)
    ensures rc == Success <==> Accepted(ctx, it, ps)
    ensures rc == Unsupported <==> ForUnknownPurpose(ctx, it, ps)
    ensures rc != NotReady
  {
    hide Segments, Varint, BigEndian, Ascii;
    if ctx.certDigest != ps.recipientDigest { return WrappedKeyInvalid; }
    var aad := BuildParProtoAadV1(RebuiltAad(ctx.requestId, ctx.domain, it, ps));
    if aad != ps.canonicalAad { return WrappedKeyInvalid; }
    if ps.aadDigest != Sha256(aad) { return WrappedKeyInvalid; }
    if PurposeEnumValue(it.purpose).None? { return Unsupported; }
    var input := BuildWireEnvelopeDigestInput(WireDigest(ctx, it));
    if it.envelopeDigest != Sha256(input) { return WrappedKeyInvalid; }
    if it.version == 0 || it.version > 0x7fff_ffff_ffff_ffff { return WrappedKeyInvalid; }
    if ps.rootVersion == 0 { return WrappedKeyInvalid; }
    if ps.derivation == [] { return WrappedKeyInvalid; }
    if ps.operationId == [] { return WrappedKeyInvalid; }
    rc := Success;
  }

  /** The associated data is that of this recipient and the trusted outer context. */
  ghost predicate Addressed(ctx: Context, it: Item, ps: Parameters) {
    && ps.recipientDigest == ctx.certDigest
    && ps.canonicalAad == Segments(AadContents(RebuiltAad(ctx.requestId, ctx.domain, it, ps)))
    && ps.aadDigest == Sha256(ps.canonicalAad)
  }

  ghost predicate KnownPurpose(it: Item) { it.purpose == Ascii(UPLINK) || it.purpose == Ascii(DOWNLINK) }

  /** Correctly addressed, but for a purpose that is not one of the two. */
  ghost predicate ForUnknownPurpose(ctx: Context, it: Item, ps: Parameters) {
    Addressed(ctx, it, ps) && !KnownPurpose(it)
  }

  /** The received bytes and digests are those of the trusted outer context. */
  ghost predicate Accepted(ctx: Context, it: Item, ps: Parameters) {
    && Profiled(it) && ctx.capable && KnownPurpose(it) && Addressed(ctx, it, ps)
    && it.envelopeDigest == Sha256(Segments(DigestContents(WireDigest(ctx, it))))
    && 1 <= it.version <= 0x7fff_ffff_ffff_ffff && ps.rootVersion > 0 && ps.derivation != [] && ps.operationId != []
  }

  lemma PurposesDiffer()
    ensures Ascii(UPLINK) != Ascii(DOWNLINK)
  {
    assert |Ascii(UPLINK)| != |Ascii(DOWNLINK)|;
  }

  /** The number of each purpose on the wire. */
  function PurposeNumber(purpose: seq<byte>): nat { if purpose == Ascii("UPLINK_AEAD") then 1 else 2 }

  /** What an accepted envelope carries, as a receiver reads it off its bytes: the associated data
      names the profile, the purpose, both versions, the recipient's certificate, the request, the
      domain, the key id and the derivation; the digest is over profile, request, domain, purpose,
      key id, version, and the wrapped key and parameters as received. */
  lemma AcceptedCarries(ctx: Context, it: Item, ps: Parameters)
    requires Sized(ctx, it, ps) && Accepted(ctx, it, ps)
    ensures ReceiveAad(ps.canonicalAad) ==
              Some(EnvelopeAad(1, 2, PurposeNumber(it.purpose), it.version, ps.rootVersion, ctx.certDigest,
                               ctx.requestId, ctx.domain, it.keyId, ps.derivation))
    ensures ps.aadDigest == Sha256(ps.canonicalAad)
    ensures it.envelopeDigest.Sha256? &&
            ReceiveDigest(it.envelopeDigest.of) ==
              Some(EnvelopeDigest(1, ctx.requestId, ctx.domain, PurposeNumber(it.purpose), it.keyId, it.version, 2,
                                  it.wrappedKey, it.parameters))
  {
    hide Segments, AadContents, DigestContents, Ascii, AadSized, DigestSized, ReceiveAad, ReceiveDigest;
    PurposesDiffer();
    AadReceived(RebuiltAad(ctx.requestId, ctx.domain, it, ps));
    DigestReceived(WireDigest(ctx, it));
  }

  /** An envelope whose bytes and digest were built from the context and its own fields passes the
      comparisons: nothing correctly sealed is refused. */
  lemma SealedIsAccepted(ctx: Context, it: Item, ps: Parameters)
    requires Profiled(it) && ctx.capable && KnownPurpose(it) && ps.recipientDigest == ctx.certDigest
    requires ps.canonicalAad ==
               Segments(AadContents(EnvelopeAad(1, 2, PurposeNumber(it.purpose), it.version, ps.rootVersion,
                                                ctx.certDigest, ctx.requestId, ctx.domain, it.keyId, ps.derivation)))
    requires ps.aadDigest == Sha256(ps.canonicalAad)
    requires it.envelopeDigest ==
               Sha256(Segments(DigestContents(
                 EnvelopeDigest(1, ctx.requestId, ctx.domain, PurposeNumber(it.purpose), it.keyId, it.version, 2,
                                it.wrappedKey, it.parameters))))
    requires 1 <= it.version < 0x8000_0000_0000_0000 && ps.rootVersion > 0 && ps.derivation != []
    requires ps.operationId != []
    ensures Accepted(ctx, it, ps)
  {
    hide Segments, AadContents, DigestContents, Ascii;
    PurposesDiffer();
  }

  /** Two accepted envelopes that carry the same associated data agree on all ten bound
      fields: it cannot be accepted for another request, domain, purpose, key id, key version,
      root key version or recipient certificate. */
  lemma AadBindsContext(ctx1: Context, it1: Item, ps1: Parameters, ctx2: Context, it2: Item, ps2: Parameters)
    requires Sized(ctx1, it1, ps1) && Sized(ctx2, it2, ps2)
    requires Accepted(ctx1, it1, ps1) && Accepted(ctx2, it2, ps2) && ps1.canonicalAad == ps2.canonicalAad
    ensures ctx1 == ctx2 && it1.purpose == it2.purpose && it1.keyId == it2.keyId && it1.version == it2.version
    ensures ps1.rootVersion == ps2.rootVersion && ps1.derivation == ps2.derivation
    ensures ps1.recipientDigest == ps2.recipientDigest
  {
    hide Segments, AadContents, DigestContents, Ascii, AadSized, DigestSized;
    PurposesDiffer();
    AadInjective(RebuiltAad(ctx1.requestId, ctx1.domain, it1, ps1), RebuiltAad(ctx2.requestId, ctx2.domain, it2, ps2));
  }

  /** Two accepted envelopes with the same digest also carry the same wrapped key and the same
      parameter bytes. */
  lemma DigestBindsContents(ctx1: Context, it1: Item, ps1: Parameters, ctx2: Context, it2: Item, ps2: Parameters)
    requires Sized(ctx1, it1, ps1) && Sized(ctx2, it2, ps2)
    requires Accepted(ctx1, it1, ps1) && Accepted(ctx2, it2, ps2) && it1.envelopeDigest == it2.envelopeDigest
    ensures it1 == it2 && ctx1.requestId == ctx2.requestId && ctx1.domain == ctx2.domain
  {
    hide Segments, AadContents, DigestContents, Ascii, AadSized, DigestSized;
    PurposesDiffer();
    DigestInputInjective(WireDigest(ctx1, it1), WireDigest(ctx2, it2));
  }
}
