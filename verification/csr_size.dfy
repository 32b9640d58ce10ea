/** How large an identity may be for the request information to be read back: the exact size of
    every part, in the lengths of the identity, of its part before the first zero byte, and of
    the raw key. */
module CsrSize {
  import opened Wrappers
  import opened CanonicalEncoding
  import opened DerEncoding
  import opened KeyEncodings
  import opened CsrBuilder

  /** The size of a value whose content has `n` bytes. */
  function Size(n: nat): nat { n + if n < 0x80 then 2 else if n <= 0xFF then 3 else 4 }

  /** A size computed here is the real one, or both are at least the limit, where the built
      length wraps. */
  ghost predicate Meets(actual: nat, size: nat) { actual == size || (actual >= LIMIT && size >= LIMIT) }

  lemma EncodeMeets(n: Node, size: nat)
    requires Meets(|Content(n)|, size)
    ensures Meets(|Encode(n)|, Size(size))
  {
    hide Content;
  }

  lemma ChildrenMeet(a: Node, sizeA: nat, b: Node, sizeB: nat)
    requires Meets(|Encode(a)|, sizeA) && Meets(|Encode(b)|, sizeB)
    ensures Meets(|EncodeAll([a, b])|, sizeA + sizeB)
  {
    hide Encode;
    TwoChildren(a, b);
  }

  // ---- name and key ----

  /** The common name takes `c` bytes; the three fixed attributes take 50 together. */
  function NameSize(c: nat): nat { Size(Size(Size(5 + Size(c))) + 50) }

  function KeySize(k: nat): nat { Size(21 + Size(1 + k)) }

  lemma AttributeMeets(oid: seq<byte>, value: seq<byte>)
    ensures Meets(|Encode(Attribute(oid, value))|, Size(Size(Size(|oid|) + Size(|value|))))
  {
    hide Encode, Size, Meets;
    var a, b := Oid(oid), Leaf(0x0C, value);
    LeafMeets(0x06, oid);
    LeafMeets(0x0C, value);
    ChildrenMeet(a, Size(|oid|), b, Size(|value|));
    EncodeMeets(Sequence([a, b]), Size(|oid|) + Size(|value|));
    OneChild(Sequence([a, b]));
    EncodeMeets(Attribute(oid, value), Size(Size(|oid|) + Size(|value|)));
  }

  lemma LeafMeets(tag: byte, content: seq<byte>)
    ensures Meets(|Encode(Leaf(tag, content))|, Size(|content|))
  {
  }

  lemma FixedAttribute(oid: seq<byte>, value: seq<byte>)
    requires |oid| == 3 && |value| < 100
    ensures |Encode(Attribute(oid, value))| == |value| + 11
  {
    hide Encode, Attribute;
    AttributeMeets(oid, value);
  }

  lemma ThreeByteOid()
    ensures Size(3) == 5
  {
  }

  lemma NameMeets(uid: seq<byte>)
    ensures Meets(|Encode(NameTree(uid))|, NameSize(|CString(uid)|))
  {
    var c := CString(uid);
    var ou, o, country := Ascii("TBOX-TSP"), Ascii("OpenIOV"), Ascii("CN");
    assert |ou| == 8 && |o| == 7 && |country| == 2;
    hide Encode, Ascii, Attribute, Size, CString;
    AttributeMeets(OID_CN, c);
    FixedAttribute(OID_OU, ou);
    FixedAttribute(OID_O, o);
    FixedAttribute(OID_C, country);
    FourChildren(Attribute(OID_CN, c), Attribute(OID_OU, ou), Attribute(OID_O, o), Attribute(OID_C, country));
    ThreeByteOid();
    EncodeMeets(NameTree(uid), Size(Size(5 + Size(|c|))) + 50);
  }

  lemma KeyMeets(raw: seq<byte>)
    ensures Meets(|Encode(KeyTree(raw))|, KeySize(|raw|))
  {
    hide Encode;
    var a, b := Oid(OID_EC), Oid(OID_PRIME256V1);
    LeafMeets(0x06, OID_EC);
    LeafMeets(0x06, OID_PRIME256V1);
    ChildrenMeet(a, 9, b, 10);
    EncodeMeets(Sequence([a, b]), 19);
    LeafMeets(0x03, [0] + raw);
    ChildrenMeet(Sequence([a, b]), 21, BitString(0, raw), Size(1 + |raw|));
    EncodeMeets(KeyTree(raw), 21 + Size(1 + |raw|));
  }

  // ---- attributes ----

  function ExtensionSize(v: nat): nat { Size(5 + Size(v)) }

  function SanValueSize(u: nat): nat { Size(Size(12 + u)) }

  /** The two usage extensions take 34 bytes together. */
  function AttributesSize(u: nat): nat { Size(Size(11 + Size(Size(ExtensionSize(SanValueSize(u)) + 34)))) }

  lemma ExtensionMeets(oid: seq<byte>, value: Node, size: nat)
    requires |oid| == 3 && Meets(|Encode(value)|, size)
    ensures Meets(|Encode(Extension(oid, value))|, ExtensionSize(size))
  {
    hide Encode;
    LeafMeets(0x06, oid);
    EncodeMeets(Leaf(0x04, Encode(value)), size);
    ChildrenMeet(Oid(oid), 5, Leaf(0x04, Encode(value)), Size(size));
    EncodeMeets(Extension(oid, value), 5 + Size(size));
  }

  lemma SanMeets(uid: seq<byte>)
    ensures Meets(|Encode(SanValue(uid))|, SanValueSize(|uid|))
  {
    var content := Ascii("urn:ecu-uid:") + uid;
    assert |content| == 12 + |uid|;
    hide Encode, Ascii;
    LeafMeets(0x86, content);
    OneChild(Leaf(0x86, content));
    EncodeMeets(SanValue(uid), Size(12 + |uid|));
  }

  lemma UsagesMeet()
    ensures |Encode(Extension(OID_KU, KuValue()))| == 13 && |Encode(Extension(OID_EKU, EkuValue()))| == 21
  {
    hide Encode;
    LeafMeets(0x03, [0, 0x88]);
    assert KuValue() == Leaf(0x03, [0, 0x88]);
    ExtensionMeets(OID_KU, KuValue(), 4);
    LeafMeets(0x06, OID_CLIENT_AUTH);
    OneChild(Oid(OID_CLIENT_AUTH));
    EncodeMeets(EkuValue(), 10);
    ExtensionMeets(OID_EKU, EkuValue(), 12);
  }

  lemma AttributesMeet(uid: seq<byte>)
    ensures Meets(|Encode(AttributesTree(uid))|, AttributesSize(|uid|))
  {
    hide Encode, Extension, SanValue, KuValue, EkuValue, SanValueSize, ExtensionSize;
    SanMeets(uid);
    ExtensionMeets(OID_SAN, SanValue(uid), SanValueSize(|uid|));
    UsagesMeet();
    var list := ExtensionList(uid);
    var n := ExtensionSize(SanValueSize(|uid|)) + 34;
    ThreeChildren(list[0], list[1], list[2]);
    EncodeMeets(Sequence(list), n);
    OneChild(Sequence(list));
    EncodeMeets(SetOf([Sequence(list)]), Size(n));
    LeafMeets(0x06, OID_EXTENSION_REQUEST);
    var pair := [Oid(OID_EXTENSION_REQUEST), SetOf([Sequence(list)])];
    ChildrenMeet(pair[0], 11, pair[1], Size(Size(n)));
    EncodeMeets(Sequence(pair), 11 + Size(Size(n)));
    OneChild(Sequence(pair));
    EncodeMeets(AttributesTree(uid), Size(11 + Size(Size(n))));
  }

  // ---- the whole ----

  /** The content of the request information is under the limit if and only if the sizes of its
      four parts say so. */
  lemma InfoFitsExactly(uid: seq<byte>, raw: seq<byte>)
    ensures |Content(InfoTree(uid, raw))| < LIMIT <==>
            3 + NameSize(|CString(uid)|) + KeySize(|raw|) + AttributesSize(|uid|) < LIMIT
  {
    hide Encode, NameTree, KeyTree, AttributesTree, NameSize, KeySize, AttributesSize, CString;
    LeafMeets(0x02, [0]);
    NameMeets(uid);
    KeyMeets(raw);
    AttributesMeet(uid);
    FourChildren(Leaf(0x02, [0]), NameTree(uid), KeyTree(raw), AttributesTree(uid));
  }

  /** For an uncompressed P-256 point a caller can tell beforehand: the information is read back
      if and only if the identity and its name together stay below 65348 bytes. */
  lemma P256InfoParsesExactly(uid: seq<byte>, raw: seq<byte>)
    requires |raw| == 65
    ensures ParseNode(Encode(InfoTree(uid, raw))) == Some((InfoTree(uid, raw), []))
            <==> |uid| + NameSize(|CString(uid)|) < 65348
    ensures |CString(uid)| >= 256 ==> NameSize(|CString(uid)|) == |CString(uid)| + 71
  {
    hide InfoTree, Encode, Content, ParseNode, CString;
    InfoParsesExactly(uid, raw);
    InfoFitsExactly(uid, raw);
    assert KeySize(65) == 91;
    if |uid| < 256 {
      assert AttributesSize(|uid|) < 1000 && NameSize(|CString(uid)|) < 1000;
    } else {
      assert AttributesSize(|uid|) == |uid| + 94;
    }
  }

  lemma NoZeroByte(s: seq<byte>)
    requires 0 !in s
    ensures CString(s) == s
  {
    if s != [] { NoZeroByte(s[1..]); }
  }

  /** An identity without a zero byte, which is written twice, may have up to 32638 bytes. */
  lemma WholeIdentityParsesExactly(uid: seq<byte>, raw: seq<byte>)
    requires |raw| == 65 && 0 !in uid
    ensures ParseNode(Encode(InfoTree(uid, raw))) == Some((InfoTree(uid, raw), [])) <==> |uid| <= 32638
  {
    hide InfoTree, Encode, ParseNode, CString;
    NoZeroByte(uid);
    P256InfoParsesExactly(uid, raw);
  }
}
