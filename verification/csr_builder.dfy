/** The certification request information of section 4.1 of RFC 2986 as the builder writes
    it for a hardware identity and a raw public key, and the tree it stands for. */
module CsrBuilder {
  import opened Wrappers
  import opened CanonicalEncoding
  import opened DerEncoding
  import opened KeyEncodings

  const OID_EC: seq<byte> := [0x2A, 0x86, 0x48, 0xCE, 0x3D, 0x02, 0x01]
  const OID_PRIME256V1: seq<byte> := [0x2A, 0x86, 0x48, 0xCE, 0x3D, 0x03, 0x01, 0x07]
  const OID_CN: seq<byte> := [0x55, 0x04, 0x03]
  const OID_OU: seq<byte> := [0x55, 0x04, 0x0B]
  const OID_O: seq<byte> := [0x55, 0x04, 0x0A]
  const OID_C: seq<byte> := [0x55, 0x04, 0x06]
  const OID_SAN: seq<byte> := [0x55, 0x1D, 0x11]
  const OID_KU: seq<byte> := [0x55, 0x1D, 0x0F]
  const OID_EKU: seq<byte> := [0x55, 0x1D, 0x25]
  const OID_CLIENT_AUTH: seq<byte> := [0x2B, 0x06, 0x01, 0x05, 0x05, 0x07, 0x03, 0x02]
  const OID_EXTENSION_REQUEST: seq<byte> := [0x2A, 0x86, 0x48, 0x86, 0xF7, 0x0D, 0x01, 0x09, 0x0E]

  // ---- the tree ----

  function Oid(oid: seq<byte>): Node { Leaf(0x06, oid) }

  function BitString(unused: byte, data: seq<byte>): Node { Leaf(0x03, [unused] + data) }

  function Sequence(children: seq<Node>): Node { Branch(0x30, children) }

  function SetOf(children: seq<Node>): Node { Branch(0x31, children) }

  /** The common name is passed as a C string: it ends at the first zero byte. */
  function CString(s: seq<byte>): (r: seq<byte>)
    ensures |r| <= |s|
  {
    if s == [] || s[0] == 0 then [] else [s[0]] + CString(s[1..])
  }

  function Attribute(oid: seq<byte>, value: seq<byte>): Node {
    SetOf([Sequence([Oid(oid), Leaf(0x0C, value)])])
  }

  function NameTree(uid: seq<byte>): Node {
    Sequence([Attribute(OID_CN, CString(uid)), Attribute(OID_OU, Ascii("TBOX-TSP")),
              Attribute(OID_O, Ascii("OpenIOV")), Attribute(OID_C, Ascii("CN"))])
  }

  function KeyTree(raw: seq<byte>): Node {
    Sequence([Sequence([Oid(OID_EC), Oid(OID_PRIME256V1)]), BitString(0, raw)])
  }

  /** An extension holds its value as an octet string of the value's own encoding. */
  function Extension(oid: seq<byte>, value: Node): Node {
    Sequence([Oid(oid), Leaf(0x04, Encode(value))])
  }

  function SanValue(uid: seq<byte>): Node { Sequence([Leaf(0x86, Ascii("urn:ecu-uid:") + uid)]) }

  function KuValue(): Node { BitString(0, [0x88]) }

  function EkuValue(): Node { Sequence([Oid(OID_CLIENT_AUTH)]) }

  function AttributesTree(uid: seq<byte>): Node {
    Branch(0xA0, [Sequence([Oid(OID_EXTENSION_REQUEST), SetOf([Sequence([
      Extension(OID_SAN, SanValue(uid)), Extension(OID_KU, KuValue()), Extension(OID_EKU, EkuValue())])])])])
  }

  function InfoTree(uid: seq<byte>, raw: seq<byte>): Node {
    Sequence([Leaf(0x02, [0]), NameTree(uid), KeyTree(raw), AttributesTree(uid)])
  }

  // ---- building it ----

  lemma OneChild(a: Node)
    ensures EncodeAll([a]) == Encode(a)
  {
    var rest: seq<Node> := [a][1..];
    assert rest == [] && EncodeAll(rest) == [];
  }

  lemma TwoChildren(a: Node, b: Node)
    ensures EncodeAll([a, b]) == Encode(a) + Encode(b)
  {
    hide Encode;
    assert [a, b][1..] == [b];
    OneChild(b);
  }

  lemma ThreeChildren(a: Node, b: Node, c: Node)
    ensures EncodeAll([a, b, c]) == Encode(a) + Encode(b) + Encode(c)
  {
    hide Encode;
    assert [a, b, c][1..] == [b, c];
    TwoChildren(b, c);
  }

  lemma FourChildren(a: Node, b: Node, c: Node, d: Node)
    ensures EncodeAll([a, b, c, d]) == Encode(a) + Encode(b) + Encode(c) + Encode(d)
  {
    hide Encode;
    assert [a, b, c, d][1..] == [b, c, d];
    ThreeChildren(b, c, d);
  }

  method EncodeLeaf(tag: byte, content: seq<byte>, out: ByteBuffer)
    modifies out
    ensures out.bytes == old(out.bytes) + Encode(Leaf(tag, content))
  {
    WrapTagLength(tag, content, out);
  }

  method EncodeBitString(data: seq<byte>, unused: byte, out: ByteBuffer)
    modifies out
    ensures out.bytes == old(out.bytes) + Encode(BitString(unused, data))
  {
    out.PushBack(0x03);
    EncodeLength((|data| + 1) % LIMIT, out);
    out.PushBack(unused);
    out.bytes := out.bytes + data;
    assert out.bytes == old(out.bytes) + ([0x03] + LengthBytes((|data| + 1) % LIMIT) + ([unused] + data));
  }

  method WrapSequence(inner: seq<byte>, ghost children: seq<Node>, out: ByteBuffer)
    requires inner == EncodeAll(children)
    modifies out
    ensures out.bytes == old(out.bytes) + Encode(Sequence(children))
  {
    WrapTagLength(0x30, inner, out);
  }

  method WrapSet(inner: seq<byte>, ghost children: seq<Node>, out: ByteBuffer)
    requires inner == EncodeAll(children)
    modifies out
    ensures out.bytes == old(out.bytes) + Encode(SetOf(children))
  {
    WrapTagLength(0x31, inner, out);
  }

  method ToCString(s: seq<byte>) returns (r: seq<byte>)
    ensures r == CString(s)
  {
    hide CString;
    var i := 0;
    assert s[0..] == s;
    while i < |s| && s[i] != 0
      invariant 0 <= i <= |s| && s[..i] + CString(s[i..]) == CString(s)
    {
      CStringAt(s, i);
      assert s[..i + 1] == s[..i] + [s[i]];
      i := i + 1;
    }
    CStringAt(s, i);
    r := s[..i];
  }

  lemma CStringAt(s: seq<byte>, i: nat)
    requires i <= |s|
    ensures i == |s| || s[i] == 0 ==> CString(s[i..]) == []
    ensures i < |s| && s[i] != 0 ==> CString(s[i..]) == [s[i]] + CString(s[i + 1..])
  {
    if i < |s| { assert s[i..][0] == s[i] && s[i..][1..] == s[i + 1..]; }
  }

  method MarshalEcPubkeyInfo(raw: seq<byte>, out: ByteBuffer)
    modifies out
    ensures out.bytes == old(out.bytes) + Encode(KeyTree(raw))
  {
    hide Encode;
    var algorithm := new ByteBuffer();
    EncodeLeaf(0x06, OID_EC, algorithm);
    EncodeLeaf(0x06, OID_PRIME256V1, algorithm);
    TwoChildren(Oid(OID_EC), Oid(OID_PRIME256V1));
    var inner := new ByteBuffer();
    WrapSequence(algorithm.bytes, [Oid(OID_EC), Oid(OID_PRIME256V1)], inner);
    EncodeBitString(raw, 0, inner);
    TwoChildren(Sequence([Oid(OID_EC), Oid(OID_PRIME256V1)]), BitString(0, raw));
    WrapSequence(inner.bytes, [Sequence([Oid(OID_EC), Oid(OID_PRIME256V1)]), BitString(0, raw)], out);
  }

  method MarshalAttribute(oid: seq<byte>, value: seq<byte>, out: ByteBuffer)
    modifies out
    ensures out.bytes == old(out.bytes) + Encode(Attribute(oid, value))
  {
    hide Encode;
    var inner := new ByteBuffer();
    EncodeLeaf(0x06, oid, inner);
    EncodeLeaf(0x0C, value, inner);
    TwoChildren(Oid(oid), Leaf(0x0C, value));
    var pair := new ByteBuffer();
    WrapSequence(inner.bytes, [Oid(oid), Leaf(0x0C, value)], pair);
    OneChild(Sequence([Oid(oid), Leaf(0x0C, value)]));
    WrapSet(pair.bytes, [Sequence([Oid(oid), Leaf(0x0C, value)])], out);
  }

  method MarshalX509Name(uid: seq<byte>, out: ByteBuffer)
    modifies out
    ensures out.bytes == old(out.bytes) + Encode(NameTree(uid))
  {
    hide Encode, Ascii;
    var cn := ToCString(uid);
    var inner := new ByteBuffer();
    MarshalAttribute(OID_CN, cn, inner);
    MarshalAttribute(OID_OU, Ascii("TBOX-TSP"), inner);
    MarshalAttribute(OID_O, Ascii("OpenIOV"), inner);
    MarshalAttribute(OID_C, Ascii("CN"), inner);
    ghost var a, b := Attribute(OID_CN, cn), Attribute(OID_OU, Ascii("TBOX-TSP"));
    ghost var c, d := Attribute(OID_O, Ascii("OpenIOV")), Attribute(OID_C, Ascii("CN"));
    FourChildren(a, b, c, d);
    WrapSequence(inner.bytes, [a, b, c, d], out);
  }

  method MarshalExtension(oid: seq<byte>, value: seq<byte>, ghost tree: Node, out: ByteBuffer)
    requires value == Encode(tree)
    modifies out
    ensures out.bytes == old(out.bytes) + Encode(Extension(oid, tree))
  {
    hide Encode;
    var inner := new ByteBuffer();
    EncodeLeaf(0x06, oid, inner);
    EncodeLeaf(0x04, value, inner);
    TwoChildren(Oid(oid), Leaf(0x04, value));
    WrapSequence(inner.bytes, [Oid(oid), Leaf(0x04, value)], out);
  }

  method MarshalSanExtension(uid: seq<byte>, out: ByteBuffer)
    modifies out
    ensures out.bytes == old(out.bytes) + Encode(Extension(OID_SAN, SanValue(uid)))
  {
    hide Encode, Ascii;
    var entries := new ByteBuffer();
    ghost var entry := Leaf(0x86, Ascii("urn:ecu-uid:") + uid);
    EncodeLeaf(0x86, Ascii("urn:ecu-uid:") + uid, entries);
    OneChild(entry);
    var names := new ByteBuffer();
    WrapSequence(entries.bytes, [entry], names);
    MarshalExtension(OID_SAN, names.bytes, SanValue(uid), out);
  }

  method MarshalKuExtension(out: ByteBuffer)
    modifies out
    ensures out.bytes == old(out.bytes) + Encode(Extension(OID_KU, KuValue()))
  {
    hide Encode;
    var bits := new ByteBuffer();
    EncodeBitString([0x88], 0, bits);
    MarshalExtension(OID_KU, bits.bytes, KuValue(), out);
  }

  method MarshalEkuExtension(out: ByteBuffer)
    modifies out
    ensures out.bytes == old(out.bytes) + Encode(Extension(OID_EKU, EkuValue()))
  {
    hide Encode;
    var oids := new ByteBuffer();
    EncodeLeaf(0x06, OID_CLIENT_AUTH, oids);
    OneChild(Oid(OID_CLIENT_AUTH));
    var usages := new ByteBuffer();
    WrapSequence(oids.bytes, [Oid(OID_CLIENT_AUTH)], usages);
    MarshalExtension(OID_EKU, usages.bytes, EkuValue(), out);
  }

  function ExtensionList(uid: seq<byte>): seq<Node> {
    [Extension(OID_SAN, SanValue(uid)), Extension(OID_KU, KuValue()), Extension(OID_EKU, EkuValue())]
  }

  method MarshalAttributes(uid: seq<byte>, out: ByteBuffer)
    modifies out
    ensures out.bytes == old(out.bytes) + Encode(AttributesTree(uid))
  {
    hide Encode, Extension, SanValue, KuValue, EkuValue;
    var extensions := new ByteBuffer();
    MarshalSanExtension(uid, extensions);
    MarshalKuExtension(extensions);
    MarshalEkuExtension(extensions);
    ghost var list := ExtensionList(uid);
    ThreeChildren(list[0], list[1], list[2]);
    var request := new ByteBuffer();
    WrapSequence(extensions.bytes, list, request);
    OneChild(Sequence(list));
    var inner := new ByteBuffer();
    EncodeLeaf(0x06, OID_EXTENSION_REQUEST, inner);
    WrapSet(request.bytes, [Sequence(list)], inner);
    TwoChildren(Oid(OID_EXTENSION_REQUEST), SetOf([Sequence(list)]));
    var attribute := new ByteBuffer();
    ghost var pair := [Oid(OID_EXTENSION_REQUEST), SetOf([Sequence(list)])];
    WrapSequence(inner.bytes, pair, attribute);
    OneChild(Sequence(pair));
    EncodeBranch(0xA0, attribute.bytes, [Sequence(pair)], out);
  }

  method EncodeBranch(tag: byte, inner: seq<byte>, ghost children: seq<Node>, out: ByteBuffer)
    requires inner == EncodeAll(children)
    modifies out
    ensures out.bytes == old(out.bytes) + Encode(Branch(tag, children))
  {
    WrapTagLength(tag, inner, out);
  }

  /** The request information for the identity and the raw public key. */
  method BuildCsrInfo(uid: seq<byte>, raw: seq<byte>) returns (der: seq<byte>)
    ensures der == Encode(InfoTree(uid, raw))
    ensures |Content(InfoTree(uid, raw))| < LIMIT <==> ParseNode(der) == Some((InfoTree(uid, raw), []))
  {
    hide Encode, NameTree, KeyTree, AttributesTree, Content, ParseNode;
    InfoParsesExactly(uid, raw);
    var inner := new ByteBuffer();
    EncodeLeaf(0x02, [0], inner);
    MarshalX509Name(uid, inner);
    MarshalEcPubkeyInfo(raw, inner);
    MarshalAttributes(uid, inner);
    FourChildren(Leaf(0x02, [0]), NameTree(uid), KeyTree(raw), AttributesTree(uid));
    var out := new ByteBuffer();
    WrapSequence(inner.bytes, [Leaf(0x02, [0]), NameTree(uid), KeyTree(raw), AttributesTree(uid)], out);
    der := out.bytes;
  }

  // ---- what is read back ----

  lemma AttributeTagged(oid: seq<byte>, value: seq<byte>)
    ensures WellTagged(Attribute(oid, value))
  {
    assert WellTagged(Sequence([Oid(oid), Leaf(0x0C, value)]));
  }

  lemma ExtensionTagged(oid: seq<byte>, value: Node)
    ensures WellTagged(Extension(oid, value))
  {
    hide Encode;
  }

  lemma NameTagged(uid: seq<byte>)
    ensures WellTagged(NameTree(uid))
  {
    AttributeTagged(OID_CN, CString(uid));
    AttributeTagged(OID_OU, Ascii("TBOX-TSP"));
    AttributeTagged(OID_O, Ascii("OpenIOV"));
    AttributeTagged(OID_C, Ascii("CN"));
    hide Attribute, Ascii;
  }

  lemma AttributesTagged(uid: seq<byte>)
    ensures WellTagged(AttributesTree(uid))
  {
    ExtensionTagged(OID_SAN, SanValue(uid));
    ExtensionTagged(OID_KU, KuValue());
    ExtensionTagged(OID_EKU, EkuValue());
    hide Extension;
    var list := ExtensionList(uid);
    assert WellTagged(Sequence(list));
    assert WellTagged(SetOf([Sequence(list)]));
    assert WellTagged(Sequence([Oid(OID_EXTENSION_REQUEST), SetOf([Sequence(list)])]));
  }

  lemma KeyTagged(raw: seq<byte>)
    ensures WellTagged(KeyTree(raw))
  {
    assert WellTagged(Sequence([Oid(OID_EC), Oid(OID_PRIME256V1)]));
  }

  lemma InfoTagged(uid: seq<byte>, raw: seq<byte>)
    ensures WellTagged(InfoTree(uid, raw))
  {
    NameTagged(uid);
    KeyTagged(raw);
    AttributesTagged(uid);
    hide NameTree, KeyTree, AttributesTree;
  }

  /** A strict parser reads the built bytes back as the tree they were built from, if and only
      if the content of the whole is shorter than 65536 bytes. */
  lemma InfoParsesExactly(uid: seq<byte>, raw: seq<byte>)
    ensures ParseNode(Encode(InfoTree(uid, raw))) == Some((InfoTree(uid, raw), []))
            <==> |Content(InfoTree(uid, raw))| < LIMIT
  {
    InfoTagged(uid, raw);
    hide InfoTree;
    RoundTripExactly(InfoTree(uid, raw));
  }

  lemma SanTagged(uid: seq<byte>)
    ensures WellTagged(SanValue(uid))
  {
    hide Ascii;
    assert WellTagged(Leaf(0x86, Ascii("urn:ecu-uid:") + uid));
  }

  /** The values inside the extensions' octet strings parse too: the alternative name, with the
      whole identity, if and only if its content is under 65536 bytes, which is to say the
      identity is under 65520; the key usage and the extended key usage always. */
  lemma ExtensionValuesParse(uid: seq<byte>)
    ensures ParseNode(Encode(SanValue(uid))) == Some((SanValue(uid), [])) <==> |Content(SanValue(uid))| < LIMIT
    ensures |Content(SanValue(uid))| < LIMIT <==> |uid| < 65520
    ensures ParseNode(Encode(KuValue())) == Some((KuValue(), []))
    ensures ParseNode(Encode(EkuValue())) == Some((EkuValue(), []))
  {
    SanSize(uid);
    SanTagged(uid);
    OneChild(Oid(OID_CLIENT_AUTH));
    TlvSize(0x06, OID_CLIENT_AUTH);
    assert WellTagged(EkuValue()) && WellTagged(KuValue());
    hide ParseNode, Ascii;
    RoundTripExactly(SanValue(uid));
    RoundTripExactly(KuValue());
    RoundTripExactly(EkuValue());
  }

  lemma SanSize(uid: seq<byte>)
    ensures |Content(SanValue(uid))| < LIMIT <==> |uid| < 65520
  {
    hide Ascii;
    OneChild(Leaf(0x86, Ascii("urn:ecu-uid:") + uid));
  }

  lemma TlvSize(tag: byte, content: seq<byte>)
    ensures |Tlv(tag, content)| <= |content| + 4
  {
  }

  lemma SanInsideExtension(uid: seq<byte>)
    ensures |Content(SanValue(uid))| < |Content(Extension(OID_SAN, SanValue(uid)))|
  {
    hide Ascii, SanValue;
    var octets := Leaf(0x04, Encode(SanValue(uid)));
    ChildrenSmaller([Oid(OID_SAN), octets], 1);
    assert |Content(SanValue(uid))| < |Content(octets)|;
  }

  /** The alternative name sits inside the request information, so it is shorter. */
  lemma SanInsideInfo(uid: seq<byte>, raw: seq<byte>)
    ensures |Content(SanValue(uid))| < |Content(InfoTree(uid, raw))|
  {
    SanInsideExtension(uid);
    hide Encode, Extension, SanValue, KuValue, EkuValue, NameTree, KeyTree;
    var list := ExtensionList(uid);
    ChildrenSmaller(list, 0);
    ChildrenSmaller([Sequence(list)], 0);
    var inner := SetOf([Sequence(list)]);
    ChildrenSmaller([Oid(OID_EXTENSION_REQUEST), inner], 1);
    var pair := [Oid(OID_EXTENSION_REQUEST), inner];
    ChildrenSmaller([Sequence(pair)], 0);
    ChildrenSmaller([Leaf(0x02, [0]), NameTree(uid), KeyTree(raw), AttributesTree(uid)], 3);
  }

  /** Two identities give the same request information only if they are the same, whenever it
      is short enough to be read back. */
  lemma InfoTellsIdentity(uid1: seq<byte>, raw1: seq<byte>, uid2: seq<byte>, raw2: seq<byte>)
    requires |Content(InfoTree(uid1, raw1))| < LIMIT && |Content(InfoTree(uid2, raw2))| < LIMIT
    requires Encode(InfoTree(uid1, raw1)) == Encode(InfoTree(uid2, raw2))
    ensures uid1 == uid2 && raw1 == raw2
  {
    hide InfoTree, Encode, Content, ParseNode;
    InfoParsesExactly(uid1, raw1);
    InfoParsesExactly(uid2, raw2);
    SanInsideInfo(uid1, raw1);
    SanInsideInfo(uid2, raw2);
    SameTreeSameIdentity(uid1, raw1, uid2, raw2);
  }

  lemma SameTreeSameIdentity(uid1: seq<byte>, raw1: seq<byte>, uid2: seq<byte>, raw2: seq<byte>)
    requires |Content(SanValue(uid1))| < LIMIT && |Content(SanValue(uid2))| < LIMIT
    requires InfoTree(uid1, raw1) == InfoTree(uid2, raw2)
    ensures uid1 == uid2 && raw1 == raw2
  {
    hide InfoTree, SanPart, KeyPart, SanValue, ParseNode, Encode, Content;
    SanOf(uid1, raw1);
    SanOf(uid2, raw2);
    KeyOf(uid1, raw1);
    KeyOf(uid2, raw2);
    assert ([0] + raw1)[1..] == raw1 && ([0] + raw2)[1..] == raw2;
    ExtensionValuesParse(uid1);
    ExtensionValuesParse(uid2);
    SanTellsIdentity(uid1, uid2);
  }

  lemma SanTellsIdentity(uid1: seq<byte>, uid2: seq<byte>)
    ensures SanValue(uid1) == SanValue(uid2) ==> uid1 == uid2
  {
    hide Ascii;
    var prefix := Ascii("urn:ecu-uid:");
    assert (prefix + uid1)[|prefix|..] == uid1 && (prefix + uid2)[|prefix|..] == uid2;
    if SanValue(uid1) == SanValue(uid2) {
      assert SanValue(uid1).children[0].content == SanValue(uid2).children[0].content;
    }
  }

  function KeyPart(t: Node): Option<seq<byte>> {
    if t.Branch? && |t.children| == 4 && t.children[2].Branch? && |t.children[2].children| == 2
       && t.children[2].children[1].Leaf?
    then Some(t.children[2].children[1].content) else None
  }

  lemma KeyOf(uid: seq<byte>, raw: seq<byte>)
    ensures KeyPart(InfoTree(uid, raw)) == Some([0] + raw)
  {
    hide NameTree, AttributesTree;
  }

  function SanPart(t: Node): Option<seq<byte>> {
    if t.Branch? && |t.children| == 4 && t.children[3].Branch? && |t.children[3].children| == 1
       && t.children[3].children[0].Branch? && |t.children[3].children[0].children| == 2
       && t.children[3].children[0].children[1].Branch? && |t.children[3].children[0].children[1].children| == 1
       && t.children[3].children[0].children[1].children[0].Branch?
       && |t.children[3].children[0].children[1].children[0].children| == 3
    then
      var ext := t.children[3].children[0].children[1].children[0].children[0];
      if ext.Branch? && |ext.children| == 2 && ext.children[1].Leaf? then Some(ext.children[1].content) else None
    else None
  }

  lemma SanOf(uid: seq<byte>, raw: seq<byte>)
    ensures SanPart(InfoTree(uid, raw)) == Some(Encode(SanValue(uid)))
  {
    hide Encode;
  }

  // ---- named bit lists ----

  /** Section 11.2.2 of X.690: a named bit list is written without its trailing zero bits, so
      either there are no bits at all, or the last bit that counts is a one and, by section
      11.2.1, the unused ones behind it are zero. */
  predicate NamedBitsMinimal(unused: nat, data: seq<byte>) {
    if data == [] then unused == 0
    else unused < 8 && data[|data| - 1] / PowerOfTwo(unused) % 2 == 1 && data[|data| - 1] % PowerOfTwo(unused) == 0
  }

  function PowerOfTwo(n: nat): (p: nat)
    ensures p > 0
  {
    if n == 0 then 1 else 2 * PowerOfTwo(n - 1)
  }

  /** The builder always writes an unused-bit count of zero. That is minimal if and only if
      there is no data or its last byte is odd. */
  lemma ZeroUnusedExactly(data: seq<byte>)
    ensures NamedBitsMinimal(0, data) <==> data == [] || data[|data| - 1] % 2 == 1
  {
  }

  lemma Powers()
    ensures PowerOfTwo(0) == 1 && PowerOfTwo(1) == 2 && PowerOfTwo(2) == 4 && PowerOfTwo(3) == 8
    ensures PowerOfTwo(4) == 16 && PowerOfTwo(5) == 32 && PowerOfTwo(6) == 64 && PowerOfTwo(7) == 128
  {
  }

  /** So the key usage, one byte ending in three zero bits, is written non-minimally; three is
      the only count that would be minimal. */
  lemma KeyUsageNotMinimal(unused: nat)
    ensures KuValue().content[0] == 0 && !NamedBitsMinimal(0, KuValue().content[1..])
    ensures NamedBitsMinimal(unused, KuValue().content[1..]) <==> unused == 3
  {
    var data := KuValue().content[1..];
    assert data == [0x88];
    ZeroUnusedExactly(data);
    Powers();
    if unused < 8 {
      assert unused == 0 || unused == 1 || unused == 2 || unused == 3 || unused == 4 || unused == 5 || unused == 6
          || unused == 7;
    }
  }
}
