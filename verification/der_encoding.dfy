/** Definite-length DER as the certificate-request builder writes it: values of one tag byte,
    a length of one to three bytes and the content. A tree of values, its encoding, a strict
    parser, and the proof that each undoes the other. */
module DerEncoding {
  import opened Wrappers
  import opened CanonicalEncoding

  datatype Node = Leaf(tag: byte, content: seq<byte>) | Branch(tag: byte, children: seq<Node>)

  const LIMIT := 65536

  // ---- encoding ----

  /** The shortest form of a length below 65536. */
  function LengthBytes(len: nat): (r: seq<byte>)
    requires len < LIMIT
    ensures 1 <= |r| <= 3
  {
    if len < 0x80 then [len]
    else if len <= 0xFF then [0x81, len]
    else [0x82, len / 256, len % 256]
  }

  /** Tag, length cut to 16 bits as the source casts it, content. */
  function Tlv(tag: byte, content: seq<byte>): (r: seq<byte>)
    ensures |content| + 2 <= |r|
  {
    [tag] + LengthBytes(|content| % LIMIT) + content
  }

  function Encode(n: Node): seq<byte>
    decreases n, 1
  {
    Tlv(n.tag, Content(n))
  }

  function Content(n: Node): seq<byte>
    decreases n, 0
  {
    match n
    case Leaf(_, content) => content
    case Branch(_, children) => EncodeAll(children)
  }

  function EncodeAll(ns: seq<Node>): seq<byte>
    decreases ns
  {
    if ns == [] then [] else Encode(ns[0]) + EncodeAll(ns[1..])
  }

  /** Single-byte tags, with the bit that tells a constructed value. */
  predicate Constructed(tag: byte) { tag / 32 % 2 == 1 }

  ghost predicate WellTagged(n: Node)
    decreases n
  {
    n.tag % 32 != 31 &&
    match n
    case Leaf(tag, _) => !Constructed(tag)
    case Branch(tag, children) => Constructed(tag) && forall i :: 0 <= i < |children| ==> WellTagged(children[i])
  }

  /** Every length fits into 16 bits. */
  ghost predicate Sized(n: Node)
    decreases n
  {
    |Content(n)| < LIMIT &&
    (n.Branch? ==> forall i :: 0 <= i < |n.children| ==> Sized(n.children[i]))
  }

  ghost predicate AllGood(ns: seq<Node>) {
    forall i :: 0 <= i < |ns| ==> WellTagged(ns[i]) && Sized(ns[i])
  }

  // ---- parsing ----

  /** The length at the front of `s`, in its shortest form only, and how many bytes it took. */
  function ParseLength(s: seq<byte>): (r: Option<(nat, nat)>)
    ensures r.Some? ==> 1 <= r.value.1 <= |s| && r.value.0 < LIMIT
  {
    if s == [] then None
    else if s[0] < 0x80 then Some((s[0], 1))
    else if s[0] == 0x81 && |s| >= 2 && s[1] >= 0x80 then Some((s[1], 2))
    else if s[0] == 0x82 && |s| >= 3 && s[1] > 0 then Some((s[1] as int * 256 + s[2] as int, 3))
    else None
  }

  /** One value at the front of `s` and what follows it. */
  function ParseNode(s: seq<byte>): (r: Option<(Node, seq<byte>)>)
    ensures r.Some? ==> |r.value.1| < |s|
    decreases |s|, 0
  {
    if s == [] || s[0] % 32 == 31 then None
    else
      var len := ParseLength(s[1..]);
      if len.None? || 1 + len.value.1 + len.value.0 > |s| then None
      else
        var start := 1 + len.value.1;
        var content := s[start..start + len.value.0];
        var rest := s[start + len.value.0..];
        if !Constructed(s[0]) then Some((Leaf(s[0], content), rest))
        else
          var children := ParseAll(content);
          if children.None? then None else Some((Branch(s[0], children.value), rest))
  }

  function ParseAll(s: seq<byte>): Option<seq<Node>>
    decreases |s|, 1
  {
    if s == [] then Some([])
    else
      var first := ParseNode(s);
      if first.None? then None
      else
        var more := ParseAll(first.value.1);
        if more.None? then None else Some([first.value.0] + more.value)
  }

  // ---- parsing undoes encoding ----

  lemma LengthParses(len: nat, rest: seq<byte>)
    requires len < LIMIT
    ensures ParseLength(LengthBytes(len) + rest) == Some((len, |LengthBytes(len)|))
  {
  }

  /** What the parser cuts out of a value followed by anything. */
  lemma TlvParts(tag: byte, content: seq<byte>, rest: seq<byte>)
    requires |content| < LIMIT
    ensures var s := Tlv(tag, content) + rest;
            var len := ParseLength(s[1..]);
            && s[0] == tag && len == Some((|content|, |LengthBytes(|content|)|))
            && 1 + len.value.1 + |content| <= |s|
            && s[1 + len.value.1..1 + len.value.1 + |content|] == content
            && s[1 + len.value.1 + |content|..] == rest
  {
    var s := Tlv(tag, content) + rest;
    var lb := LengthBytes(|content|);
    assert s == [tag] + (lb + (content + rest));
    assert s[1..] == lb + (content + rest);
    LengthParses(|content|, content + rest);
    assert s[1 + |lb|..] == content + rest;
  }

  lemma {:induction false} EncodedParses(n: Node, rest: seq<byte>)
    requires WellTagged(n) && Sized(n)
    ensures ParseNode(Encode(n) + rest) == Some((n, rest))
    decreases n, 1
  {
    TlvParts(n.tag, Content(n), rest);
    hide Tlv, LengthBytes, ParseLength;
    if n.Branch? { AllParse(n.children); }
  }

  lemma {:induction false} AllParse(ns: seq<Node>)
    requires AllGood(ns)
    ensures ParseAll(EncodeAll(ns)) == Some(ns)
    decreases ns, 0
  {
    hide Tlv;
    if ns != [] {
      EncodedParses(ns[0], EncodeAll(ns[1..]));
      AllParse(ns[1..]);
      assert ns == [ns[0]] + ns[1..];
    }
  }

  // ---- encoding undoes parsing ----

  lemma ParsedLengthBytes(s: seq<byte>)
    requires ParseLength(s).Some?
    ensures LengthBytes(ParseLength(s).value.0) == s[..ParseLength(s).value.1]
  {
  }

  /** The parser accepts nothing but encodings: what it returns encodes to what it consumed,
      with every length in its shortest form. */
  lemma {:induction false} ParsedEncodes(s: seq<byte>)
    requires ParseNode(s).Some?
    ensures var (n, rest) := ParseNode(s).value; WellTagged(n) && Sized(n) && s == Encode(n) + rest
    decreases |s|, 0
  {
    var len := ParseLength(s[1..]).value;
    var start := 1 + len.1;
    var content := s[start..start + len.0];
    ParsedLengthBytes(s[1..]);
    assert s == [s[0]] + s[1..][..len.1] + content + s[start + len.0..];
    assert s == Tlv(s[0], content) + s[start + len.0..];
    hide ParseLength, LengthBytes, Tlv;
    if Constructed(s[0]) { AllParsedEncode(content); }
  }

  lemma {:induction false} AllParsedEncode(s: seq<byte>)
    requires ParseAll(s).Some?
    ensures AllGood(ParseAll(s).value) && EncodeAll(ParseAll(s).value) == s
    decreases |s|, 1
  {
    hide Tlv, ParseNode;
    if s != [] {
      var (n, rest) := ParseNode(s).value;
      ParsedEncodes(s);
      AllParsedEncode(rest);
      var more := ParseAll(rest).value;
      assert ([n] + more)[0] == n && ([n] + more)[1..] == more;
    }
  }

  lemma {:induction false} ChildrenSmaller(ns: seq<Node>, i: nat)
    requires i < |ns|
    ensures |Content(ns[i])| < |EncodeAll(ns)|
    decreases ns
  {
    hide LengthBytes;
    if i > 0 { ChildrenSmaller(ns[1..], i - 1); }
  }

  /** Only the outermost length matters: if it fits, all do. */
  lemma {:induction false} SizedByRoot(n: Node)
    ensures Sized(n) <==> |Content(n)| < LIMIT
    decreases n
  {
    if n.Branch? && |Content(n)| < LIMIT {
      forall i | 0 <= i < |n.children| ensures Sized(n.children[i]) {
        ChildrenSmaller(n.children, i);
        SizedByRoot(n.children[i]);
      }
    }
  }

  /** A well-tagged tree parses back from its encoding if and only if its content is shorter
      than 65536 bytes; beyond that the 16-bit cast writes a wrong length. */
  lemma RoundTripExactly(n: Node)
    requires WellTagged(n)
    ensures ParseNode(Encode(n)) == Some((n, [])) <==> |Content(n)| < LIMIT
  {
    SizedByRoot(n);
    hide Content, Encode, ParseNode, LengthBytes;
    if Sized(n) {
      EncodedParses(n, []);
      assert Encode(n) + [] == Encode(n);
    }
    if ParseNode(Encode(n)) == Some((n, [])) { ParsedEncodes(Encode(n)); }
  }

  // ---- the builder's helpers ----

  method EncodeLength(len: nat, out: ByteBuffer)
    requires len < LIMIT
    modifies out
    ensures out.bytes == old(out.bytes) + LengthBytes(len)
  {
    if len < 0x80 {
      out.PushBack(len);
    } else if len <= 0xFF {
      out.PushBack(0x81);
      out.PushBack(len);
    } else {
      out.PushBack(0x82);
      out.PushBack(len / 256);
      out.PushBack(len % 256);
    }
  }

  method WrapTagLength(tag: byte, inner: seq<byte>, out: ByteBuffer)
    modifies out
    ensures out.bytes == old(out.bytes) + Tlv(tag, inner)
  {
    out.PushBack(tag);
    EncodeLength(|inner| % LIMIT, out);
    out.bytes := out.bytes + inner;
    assert out.bytes == old(out.bytes) + ([tag] + LengthBytes(|inner| % LIMIT) + inner);
  }
}
