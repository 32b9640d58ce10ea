/** What a certificate authority reads out of the request information: a reader written from
    section 4.1 of RFC 2986 and sections 4.1 and 4.2 of RFC 5280, applied to the built bytes. */
module CsrReader {
  import opened Wrappers
  import opened CanonicalEncoding
  import opened DerEncoding
  import opened KeyEncodings
  import opened CsrBuilder

  /** An object identifier with what belongs to it. */
  datatype Entry = Entry(oid: seq<byte>, value: seq<byte>)

  datatype Request = Request(version: seq<byte>, subject: seq<Entry>, algorithm: seq<byte>, curve: seq<byte>,
                             point: seq<byte>, extensions: seq<Entry>)

  /** An object identifier and one more primitive value with the given tag, in a sequence. */
  function ReadEntry(t: Node, tag: byte): Option<Entry> {
    if t.Branch? && t.tag == 0x30 && |t.children| == 2 && t.children[0].Leaf? && t.children[0].tag == 0x06
       && t.children[1].Leaf? && t.children[1].tag == tag
    then Some(Entry(t.children[0].content, t.children[1].content)) else None
  }

  /** A relative distinguished name of one attribute, a UTF-8 string. */
  function ReadRdn(t: Node): Option<Entry> {
    if t.Branch? && t.tag == 0x31 && |t.children| == 1 then ReadEntry(t.children[0], 0x0C) else None
  }

  function ReadRdns(ts: seq<Node>): Option<seq<Entry>> {
    if ts == [] then Some([])
    else
      var first, more := ReadRdn(ts[0]), ReadRdns(ts[1..]);
      if first.None? || more.None? then None else Some([first.value] + more.value)
  }

  /** Extensions without a critical flag. */
  function ReadExtensions(ts: seq<Node>): Option<seq<Entry>> {
    if ts == [] then Some([])
    else
      var first, more := ReadEntry(ts[0], 0x04), ReadExtensions(ts[1..]);
      if first.None? || more.None? then None else Some([first.value] + more.value)
  }

  /** The one attribute in the context-specific set: the extension request of PKCS #9, whose value
      is one list of extensions. */
  function ReadAttributes(t: Node): Option<seq<Entry>> {
    if t.Branch? && t.tag == 0xA0 && |t.children| == 1 && t.children[0].Branch? && t.children[0].tag == 0x30
       && |t.children[0].children| == 2
       && t.children[0].children[0] == Leaf(0x06, [0x2A, 0x86, 0x48, 0x86, 0xF7, 0x0D, 0x01, 0x09, 0x0E])
       && t.children[0].children[1].Branch? && t.children[0].children[1].tag == 0x31
       && |t.children[0].children[1].children| == 1 && t.children[0].children[1].children[0].Branch?
       && t.children[0].children[1].children[0].tag == 0x30
    then ReadExtensions(t.children[0].children[1].children[0].children) else None
  }

  /** The algorithm with its curve, and the key as a bit string without unused bits. */
  function ReadKey(t: Node): Option<(seq<byte>, seq<byte>, seq<byte>)> {
    if t.Branch? && t.tag == 0x30 && |t.children| == 2 && t.children[0].Branch? && t.children[0].tag == 0x30
       && |t.children[0].children| == 2 && t.children[0].children[0].Leaf? && t.children[0].children[0].tag == 0x06
       && t.children[0].children[1].Leaf? && t.children[0].children[1].tag == 0x06
       && t.children[1].Leaf? && t.children[1].tag == 0x03 && |t.children[1].content| >= 1
       && t.children[1].content[0] == 0
    then Some((t.children[0].children[0].content, t.children[0].children[1].content, t.children[1].content[1..]))
    else None
  }

  function ReadRequest(t: Node): Option<Request> {
    if t.Branch? && t.tag == 0x30 && |t.children| == 4 && t.children[0].Leaf? && t.children[0].tag == 0x02
       && t.children[1].Branch? && t.children[1].tag == 0x30
    then
      var subject := ReadRdns(t.children[1].children);
      var key := ReadKey(t.children[2]);
      var extensions := ReadAttributes(t.children[3]);
      if subject.None? || key.None? || extensions.None? then None
      else Some(Request(t.children[0].content, subject.value, key.value.0, key.value.1, key.value.2, extensions.value))
    else None
  }

  lemma OneExtensionMore(t: Node, ts: seq<Node>)
    requires ReadEntry(t, 0x04).Some? && ReadExtensions(ts).Some?
    ensures ReadExtensions([t] + ts) == Some([ReadEntry(t, 0x04).value] + ReadExtensions(ts).value)
  {
    hide ReadEntry;
    assert ([t] + ts)[1..] == ts;
  }

  lemma NothingRead()
    ensures ReadExtensions([]) == Some([]) && ReadRdns([]) == Some([])
  {
  }

  lemma ThreeExtensions(a: Node, b: Node, c: Node)
    requires ReadEntry(a, 0x04).Some? && ReadEntry(b, 0x04).Some? && ReadEntry(c, 0x04).Some?
    ensures ReadExtensions([a, b, c]) ==
              Some([ReadEntry(a, 0x04).value, ReadEntry(b, 0x04).value, ReadEntry(c, 0x04).value])
  {
    hide ReadEntry, ReadExtensions;
    NothingRead();
    OneExtensionMore(c, []);
    OneExtensionMore(b, [c] + []);
    OneExtensionMore(a, [b] + ([c] + []));
    var x, y, z := ReadEntry(a, 0x04).value, ReadEntry(b, 0x04).value, ReadEntry(c, 0x04).value;
    assert [x] + ([y] + ([z] + [])) == [x, y, z];
    assert [a, b, c] == [a] + ([b] + ([c] + []));
  }

  lemma OneRdnMore(t: Node, ts: seq<Node>)
    requires ReadRdn(t).Some? && ReadRdns(ts).Some?
    ensures ReadRdns([t] + ts) == Some([ReadRdn(t).value] + ReadRdns(ts).value)
  {
    hide ReadRdn;
    assert ([t] + ts)[1..] == ts;
  }

  lemma FourRdns(a: Node, b: Node, c: Node, d: Node)
    requires ReadRdn(a).Some? && ReadRdn(b).Some? && ReadRdn(c).Some? && ReadRdn(d).Some?
    ensures ReadRdns([a, b, c, d]) ==
              Some([ReadRdn(a).value, ReadRdn(b).value, ReadRdn(c).value, ReadRdn(d).value])
  {
    hide ReadRdn, ReadRdns;
    NothingRead();
    OneRdnMore(d, []);
    OneRdnMore(c, [d] + []);
    OneRdnMore(b, [c] + ([d] + []));
    OneRdnMore(a, [b] + ([c] + ([d] + [])));
    var w, x, y, z := ReadRdn(a).value, ReadRdn(b).value, ReadRdn(c).value, ReadRdn(d).value;
    assert [w] + ([x] + ([y] + ([z] + []))) == [w, x, y, z];
    assert [a, b, c, d] == [a] + ([b] + ([c] + ([d] + [])));
  }

  /** Common name, organisational unit, organisation and country, by their identifiers 2.5.4.3, 11,
      10 and 6. */
  lemma SubjectRead(uid: seq<byte>)
    ensures NameTree(uid).Branch? && NameTree(uid).tag == 0x30
    ensures ReadRdns(NameTree(uid).children) ==
              Some([Entry([0x55, 0x04, 0x03], CString(uid)), Entry([0x55, 0x04, 0x0B], Ascii("TBOX-TSP")),
                    Entry([0x55, 0x04, 0x0A], Ascii("OpenIOV")), Entry([0x55, 0x04, 0x06], Ascii("CN"))])
  {
    hide Ascii, CString;
    var cs := NameTree(uid).children;
    FourRdns(cs[0], cs[1], cs[2], cs[3]);
  }

  lemma KeyRead(raw: seq<byte>)
    ensures ReadKey(KeyTree(raw)) ==
              Some(([0x2A, 0x86, 0x48, 0xCE, 0x3D, 0x02, 0x01],
                    [0x2A, 0x86, 0x48, 0xCE, 0x3D, 0x03, 0x01, 0x07], raw))
  {
    assert ([0] + raw)[1..] == raw;
  }

  /** The three extensions by their identifiers 2.5.29.17, 15 and 37. */
  lemma ExtensionsRead(uid: seq<byte>)
    ensures ReadAttributes(AttributesTree(uid)) ==
              Some([Entry([0x55, 0x1D, 0x11], Encode(SanValue(uid))), Entry([0x55, 0x1D, 0x0F], Encode(KuValue())),
                    Entry([0x55, 0x1D, 0x25], Encode(EkuValue()))])
  {
    hide Encode, SanValue, KuValue, EkuValue;
    var list := ExtensionList(uid);
    ThreeExtensions(list[0], list[1], list[2]);
    assert AttributesTree(uid).children[0].children[1].children[0].children == list;
  }

  /** The one alternative name, a URI; the key usage, digital signature and key agreement; the one
      extended usage, client authentication. */
  lemma ValuesAre(uid: seq<byte>)
    ensures SanValue(uid) == Branch(0x30, [Leaf(0x86, Ascii("urn:ecu-uid:") + uid)])
    ensures KuValue() == Leaf(0x03, [0, 0x88])
    ensures EkuValue() == Branch(0x30, [Leaf(0x06, [0x2B, 0x06, 0x01, 0x05, 0x05, 0x07, 0x03, 0x02])])
  {
  }

  /** The name stops before the first zero byte. */
  lemma {:induction false} CStringExactly(s: seq<byte>) returns (n: nat)
    ensures n <= |s| && CString(s) == s[..n] && (forall i :: 0 <= i < n ==> s[i] != 0) && (n < |s| ==> s[n] == 0)
  {
    n := 0;
    if s != [] && s[0] != 0 {
      var k := CStringExactly(s[1..]);
      n := k + 1;
      assert s[..n] == [s[0]] + s[1..][..k];
      assert n < |s| ==> s[n] == s[1..][k];
    }
  }

  /** What is read out of the built bytes, whenever they can be read at all: version 0, the fixed
      subject with the identity as common name, the algorithm with its curve, the key as given, and
      three extensions whose values parse to the identity's URI and the two usages. */
  lemma InfoReads(uid: seq<byte>, raw: seq<byte>)
    requires |Content(InfoTree(uid, raw))| < LIMIT
    ensures var parsed := ParseNode(Encode(InfoTree(uid, raw)));
            && parsed.Some? && parsed.value.1 == []
            && ReadRequest(parsed.value.0) ==
                 Some(Request([0],
                   [Entry([0x55, 0x04, 0x03], CString(uid)), Entry([0x55, 0x04, 0x0B], Ascii("TBOX-TSP")),
                    Entry([0x55, 0x04, 0x0A], Ascii("OpenIOV")), Entry([0x55, 0x04, 0x06], Ascii("CN"))],
                   [0x2A, 0x86, 0x48, 0xCE, 0x3D, 0x02, 0x01], [0x2A, 0x86, 0x48, 0xCE, 0x3D, 0x03, 0x01, 0x07], raw,
                   [Entry([0x55, 0x1D, 0x11], Encode(SanValue(uid))), Entry([0x55, 0x1D, 0x0F], Encode(KuValue())),
                    Entry([0x55, 0x1D, 0x25], Encode(EkuValue()))]))
    ensures ParseNode(Encode(SanValue(uid))) ==
              Some((Branch(0x30, [Leaf(0x86, Ascii("urn:ecu-uid:") + uid)]), []))
    ensures ParseNode(Encode(KuValue())) == Some((Leaf(0x03, [0, 0x88]), []))
    ensures ParseNode(Encode(EkuValue())) ==
              Some((Branch(0x30, [Leaf(0x06, [0x2B, 0x06, 0x01, 0x05, 0x05, 0x07, 0x03, 0x02])]), []))
  {
    hide Encode, Content, ParseNode, Ascii, CString, NameTree, KeyTree, AttributesTree, SanValue, KuValue, EkuValue,
         ReadRdns, ReadKey, ReadAttributes;
    InfoParsesExactly(uid, raw);
    SanInsideInfo(uid, raw);
    ExtensionValuesParse(uid);
    ValuesAre(uid);
    SubjectRead(uid);
    KeyRead(raw);
    ExtensionsRead(uid);
  }
}
