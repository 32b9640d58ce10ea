/** The block scan of the certificate-chain parser, the language it accepts, and the
    command-line tool's PEM output, which it reads back. Stricter than section 3 of RFC 7468:
    nothing but white space may stand outside the blocks. */
module PemScanner {
  import opened Wrappers
  import opened Base64

  const BEGIN_CERT := "-----BEGIN CERTIFICATE-----"
  const END_CERT := "-----END CERTIFICATE-----"

  predicate IsSpace(c: char) { c as int in {32, 9, 13, 10, 12, 11} }

  predicate IsBase64(c: char) {
    'A' <= c <= 'Z' || 'a' <= c <= 'z' || '0' <= c <= '9' || c == '+' || c == '/' || c == '='
  }

  predicate IsContent(c: char) { IsBase64(c) || IsSpace(c) }

  predicate AllSpace(s: string) { forall i :: 0 <= i < |s| ==> IsSpace(s[i]) }

  predicate AllContent(s: string) { forall i :: 0 <= i < |s| ==> IsContent(s[i]) }

  // ---- the language ----

  /** A block with the white space before it. */
  datatype Block = Block(gap: string, body: string)

  function RenderBlock(b: Block, rest: string): string {
    b.gap + (BEGIN_CERT + (b.body + (END_CERT + rest)))
  }

  function Render(blocks: seq<Block>, tail: string): string {
    if blocks == [] then tail
    else RenderBlock(blocks[0], Render(blocks[1..], tail))
  }

  ghost predicate WellFormed(blocks: seq<Block>) {
    forall i :: 0 <= i < |blocks| ==> AllSpace(blocks[i].gap) && AllContent(blocks[i].body)
  }

  // ---- the scan, on the rest of the text ----

  datatype Scan = Blocks(blocks: seq<Block>, tail: string) | BadFormat | TooMany

  function SpaceCount(s: string): (n: nat)
    ensures n <= |s| && AllSpace(s[..n]) && (n < |s| ==> !IsSpace(s[n]))
  {
    if s == "" || !IsSpace(s[0]) then 0 else 1 + SpaceCount(s[1..])
  }

  predicate StartsWith(s: string, prefix: string) { |prefix| <= |s| && s[..|prefix|] == prefix }

  /** Where `sub` first occurs. */
  function Find(s: string, sub: string): (r: Option<nat>)
    ensures r.Some? ==> r.value <= |s| && StartsWith(s[r.value..], sub)
  {
    if StartsWith(s, sub) then Some(0)
    else if s == "" then None
    else
      var r := Find(s[1..], sub);
      if r.None? then None else Some(r.value + 1)
  }

  /** What stands at the front of `s`: nothing but white space, a block, or neither. */
  datatype Front = Nothing | Cut(block: Block, rest: string) | Neither

  function NextBlock(s: string): (r: Front)
    ensures r.Cut? ==> |r.rest| < |s|
  {
    var n := SpaceCount(s);
    if n == |s| then Nothing
    else if !StartsWith(s[n..], BEGIN_CERT) then Neither
    else
      var inner := s[n + |BEGIN_CERT|..];
      var k := Find(inner, END_CERT);
      if k.None? then Neither
      else if !AllContent(inner[..k.value]) then Neither
      else Cut(Block(s[..n], inner[..k.value]), inner[k.value + |END_CERT|..])
  }

  /** Scan `s` when `budget` more blocks are allowed. */
  function ScanFrom(s: string, budget: nat): Scan
    decreases |s|
  {
    match NextBlock(s)
    case Nothing => Blocks([], s)
    case Neither => BadFormat
    case Cut(b, rest) =>
      if budget == 0 then TooMany
      else
        match ScanFrom(rest, budget - 1)
        case Blocks(more, tail) => Blocks([b] + more, tail)
        case other => other
  }

  lemma MarkersAreNotSpace()
    ensures !IsSpace(BEGIN_CERT[0]) && !IsContent(END_CERT[0]) && |BEGIN_CERT| == 27 && |END_CERT| == 25
  {
  }

  // ---- the scan accepts exactly the language ----

  lemma {:induction false} SpaceThenMarker(gap: string, rest: string)
    requires AllSpace(gap) && (rest == "" || !IsSpace(rest[0]))
    ensures SpaceCount(gap + rest) == |gap|
    decreases |gap|
  {
    if gap == "" {
      assert gap + rest == rest;
    } else {
      assert (gap + rest)[1..] == gap[1..] + rest;
      SpaceThenMarker(gap[1..], rest);
    }
  }

  lemma NotAtFront(s: string, marker: string)
    requires s != "" && marker != "" && s[0] != marker[0]
    ensures !StartsWith(s, marker)
  {
    assert |marker| <= |s| ==> s[..|marker|][0] == s[0];
  }

  lemma {:induction false} FindAfterContent(body: string, rest: string)
    requires AllContent(body)
    ensures Find(body + (END_CERT + rest), END_CERT) == Some(|body|)
    decreases |body|
  {
    MarkersAreNotSpace();
    var s := body + (END_CERT + rest);
    if body == "" {
      assert s == END_CERT + rest;
      assert s[..|END_CERT|] == END_CERT;
    } else {
      assert s[0] == body[0] && s[1..] == body[1..] + (END_CERT + rest);
      NotAtFront(s, END_CERT);
      FindAfterContent(body[1..], rest);
    }
  }

  /** Reading one rendered block off the front. */
  lemma RenderedBlock(b: Block, rest: string)
    requires AllSpace(b.gap) && AllContent(b.body)
    ensures var s := RenderBlock(b, rest);
            var n := SpaceCount(s);
            && n == |b.gap| < |s| && s[..n] == b.gap && StartsWith(s[n..], BEGIN_CERT)
            && n + |BEGIN_CERT| <= |s|
            && s[n + |BEGIN_CERT|..] == b.body + (END_CERT + rest)
  {
    MarkersAreNotSpace();
    var marked := BEGIN_CERT + (b.body + (END_CERT + rest));
    SpaceThenMarker(b.gap, marked);
    var s := b.gap + marked;
    assert s[|b.gap|..] == marked;
    assert marked[..|BEGIN_CERT|] == BEGIN_CERT;
    assert s[|b.gap| + |BEGIN_CERT|..] == marked[|BEGIN_CERT|..];
  }

  /** A block stands at the front of exactly the texts it renders to. */
  lemma BlockIsCut(b: Block, rest: string)
    requires AllSpace(b.gap) && AllContent(b.body)
    ensures NextBlock(RenderBlock(b, rest)) == Cut(b, rest)
  {
    hide AllSpace, AllContent, Find, SpaceCount, StartsWith;
    RenderedBlock(b, rest);
    FindAfterContent(b.body, rest);
    var inner := b.body + (END_CERT + rest);
    assert inner[..|b.body|] == b.body;
    assert inner[|b.body| + |END_CERT|..] == rest;
  }

  lemma CutIsBlock(s: string)
    ensures NextBlock(s).Cut? ==>
              AllSpace(NextBlock(s).block.gap) && AllContent(NextBlock(s).block.body)
              && s == RenderBlock(NextBlock(s).block, NextBlock(s).rest)
  {
    hide AllSpace, AllContent, Find, SpaceCount, StartsWith;
    var n := SpaceCount(s);
    if NextBlock(s).Cut? {
      CutBlock(s);
    }
  }

  lemma NothingIsSpace(s: string)
    ensures NextBlock(s) == Nothing <==> AllSpace(s)
  {
    assert s[..|s|] == s;
    if AllSpace(s) {
      SpaceThenMarker(s, "");
      assert s + "" == s;
    }
    hide Find, StartsWith, AllContent;
  }

  /** A well-formed text within the budget is read back as exactly its blocks. */
  lemma {:induction false} RenderedScans(blocks: seq<Block>, tail: string, budget: nat)
    requires WellFormed(blocks) && AllSpace(tail) && |blocks| <= budget
    ensures ScanFrom(Render(blocks, tail), budget) == Blocks(blocks, tail)
    decreases |blocks|
  {
    hide NextBlock, AllSpace, AllContent;
    if blocks == [] {
      NothingIsSpace(tail);
    } else {
      BlockIsCut(blocks[0], Render(blocks[1..], tail));
      RenderedScans(blocks[1..], tail, budget - 1);
      assert blocks == [blocks[0]] + blocks[1..];
    }
  }

  /** One well-formed block more than the budget allows is refused as too many, whatever
      follows it. */
  lemma {:induction false} OneTooMany(blocks: seq<Block>, rest: string, budget: nat)
    requires WellFormed(blocks) && |blocks| == budget + 1
    ensures ScanFrom(Render(blocks, rest), budget) == TooMany
    decreases |blocks|
  {
    hide NextBlock, AllSpace, AllContent;
    BlockIsCut(blocks[0], Render(blocks[1..], rest));
    if budget > 0 { OneTooMany(blocks[1..], rest, budget - 1); }
  }

  /** A block cut off the front is rendered by what was cut. */
  lemma CutBlock(s: string)
    requires var n := SpaceCount(s); n < |s| && StartsWith(s[n..], BEGIN_CERT)
    requires Find(s[SpaceCount(s) + |BEGIN_CERT|..], END_CERT).Some?
    ensures var n := SpaceCount(s);
            var inner := s[n + |BEGIN_CERT|..];
            var k := Find(inner, END_CERT).value;
            && k + |END_CERT| <= |inner|
            && s == s[..n] + (BEGIN_CERT + (inner[..k] + (END_CERT + inner[k + |END_CERT|..])))
  {
    hide AllSpace, SpaceCount, Find;
    var n := SpaceCount(s);
    var inner := s[n + |BEGIN_CERT|..];
    var k := Find(inner, END_CERT).value;
    Rejoin(s, n, BEGIN_CERT);
    Rejoin(inner, k, END_CERT);
  }

  lemma Rejoin(s: string, n: nat, marker: string)
    requires n <= |s| && StartsWith(s[n..], marker)
    ensures n + |marker| <= |s| && s == s[..n] + (marker + s[n + |marker|..])
  {
    assert s[n..] == s[n..][..|marker|] + s[n..][|marker|..];
    assert s[n..][|marker|..] == s[n + |marker|..];
    assert s == s[..n] + s[n..];
  }

  /** What the scan accepts, or refuses as too many, was rendered from well-formed blocks. */
  lemma {:induction false} ScannedRenders(s: string, budget: nat)
    ensures match ScanFrom(s, budget)
            case Blocks(blocks, tail) =>
              WellFormed(blocks) && AllSpace(tail) && |blocks| <= budget && Render(blocks, tail) == s
            case TooMany =>
              exists blocks, rest :: WellFormed(blocks) && |blocks| == budget + 1 && Render(blocks, rest) == s
            case BadFormat => true
    decreases |s|
  {
    hide NextBlock, AllSpace, AllContent;
    NothingIsSpace(s);
    CutIsBlock(s);
    match NextBlock(s)
    case Nothing =>
    case Neither =>
    case Cut(b, rest) =>
      if budget == 0 {
        Rendered(b, [], rest, rest);
      } else {
        ScannedRenders(rest, budget - 1);
        match ScanFrom(rest, budget - 1) {
          case Blocks(more, tail) => Rendered(b, more, tail, rest);
          case TooMany =>
            var more, last :| WellFormed(more) && |more| == budget && Render(more, last) == rest;
            Rendered(b, more, last, rest);
          case BadFormat =>
        }
      }
  }

  lemma Rendered(b: Block, more: seq<Block>, tail: string, rest: string)
    requires AllSpace(b.gap) && AllContent(b.body) && WellFormed(more) && Render(more, tail) == rest
    ensures WellFormed([b] + more) && Render([b] + more, tail) == RenderBlock(b, rest)
  {
    hide AllSpace, AllContent;
    assert ([b] + more)[1..] == more;
  }

  /** The scan recognises the language: it accepts a text with blocks and tail exactly when
      they are well formed, within the budget, and render to that text. In particular a text
      can be taken apart in one way only. */
  lemma ScanRecognises(s: string, budget: nat, blocks: seq<Block>, tail: string)
    ensures ScanFrom(s, budget) == Blocks(blocks, tail) <==>
            WellFormed(blocks) && AllSpace(tail) && |blocks| <= budget && Render(blocks, tail) == s
  {
    hide ScanFrom, Render;
    ScannedRenders(s, budget);
    if WellFormed(blocks) && AllSpace(tail) && |blocks| <= budget && Render(blocks, tail) == s {
      RenderedScans(blocks, tail, budget);
    }
  }

  // ---- the loop ----

  datatype Stage = Ok | InputFormat | SizeLimit

  /** The block at `from`, if one stands there. */
  method BlockAt(data: string, from: nat) returns (front: Front, bodyAt: nat, bodyEnd: nat)
    requires from < |data|
    ensures front == NextBlock(data[from..])
    ensures front.Cut? ==>
      bodyAt == from + |front.block.gap| + |BEGIN_CERT| && bodyAt <= bodyEnd && bodyEnd + |END_CERT| <= |data|
    ensures front.Cut? ==> data[bodyAt..bodyEnd] == front.block.body && data[bodyEnd + |END_CERT|..] == front.rest
  {
    hide AllSpace, AllContent, Find, SpaceCount, StartsWith;
    bodyAt, bodyEnd := 0, 0;
    var start := SkipSpace(data, from);
    if start == |data| { return Nothing, bodyAt, bodyEnd; }
    DropTwice(data, from, start);
    PrefixOf(data, start, BEGIN_CERT);
    if !(start + |BEGIN_CERT| <= |data| && data[start..start + |BEGIN_CERT|] == BEGIN_CERT) {
      return Neither, bodyAt, bodyEnd;
    }
    bodyAt := start + |BEGIN_CERT|;
    DropTwice(data, from, bodyAt);
    var end := FindFrom(data, bodyAt, END_CERT);
    if end.None? { return Neither, bodyAt, bodyEnd; }
    bodyEnd := end.value;
    var good := ContentOnly(data, bodyAt, bodyEnd);
    DropTake(data, bodyAt, bodyEnd);
    if !good { return Neither, bodyAt, bodyEnd; }
    DropTwice(data, bodyAt, bodyEnd + |END_CERT|);
    DropTake(data, from, start);
    front := Cut(Block(data[from..start], data[bodyAt..bodyEnd]), data[bodyEnd + |END_CERT|..]);
  }

  lemma DropTwice(s: string, a: nat, b: nat)
    requires a <= b <= |s|
    ensures s[a..][b - a..] == s[b..]
  {
  }

  lemma DropTake(s: string, a: nat, b: nat)
    requires a <= b <= |s|
    ensures s[a..][..b - a] == s[a..b]
  {
  }

  /** The scan loop: a position, a block count, the extent of the first block's content. */
  method ScanBlocks(data: string, maxCertificates: nat)
    returns (stage: Stage, blockCount: nat, firstBegin: nat, firstEnd: nat)
    ensures match ScanFrom(data, maxCertificates)
            case Blocks(blocks, _) => stage == Ok && blockCount == |blocks|
            case BadFormat => stage == InputFormat
            case TooMany => stage == SizeLimit
    ensures stage == Ok && blockCount > 0 ==>
              firstBegin <= firstEnd <= |data|
              && data[firstBegin..firstEnd] == ScanFrom(data, maxCertificates).blocks[0].body
              && firstBegin == |ScanFrom(data, maxCertificates).blocks[0].gap| + |BEGIN_CERT|
  {
    hide NextBlock;
    var pos := 0;
    blockCount, firstBegin, firstEnd := 0, 0, 0;
    ghost var whole := ScanFrom(data, maxCertificates);
    assert data[0..] == data;
    while pos < |data|
      invariant 0 <= pos <= |data| && blockCount <= maxCertificates
      invariant Ahead(whole, ScanFrom(data[pos..], maxCertificates - blockCount), blockCount)
      invariant blockCount == 0 ==> pos == 0
      invariant blockCount > 0 ==> firstBegin <= firstEnd <= |data|
      invariant blockCount > 0 && whole.Blocks? ==> whole.blocks != []
      invariant blockCount > 0 && whole.Blocks? ==> data[firstBegin..firstEnd] == whole.blocks[0].body
      invariant blockCount > 0 && whole.Blocks? ==> firstBegin == |whole.blocks[0].gap| + |BEGIN_CERT|
      decreases |data| - pos
    {
      var front, bodyAt, bodyEnd := BlockAt(data, pos);
      match front {
        case Nothing => return Ok, blockCount, firstBegin, firstEnd;
        case Neither => return InputFormat, blockCount, firstBegin, firstEnd;
        case Cut(b, _) =>
          if blockCount == 0 { firstBegin, firstEnd := bodyAt, bodyEnd; }
          pos := bodyEnd + |END_CERT|;
          blockCount := blockCount + 1;
          if blockCount > maxCertificates { return SizeLimit, blockCount, firstBegin, firstEnd; }
      }
    }
    NothingIsSpace(data[pos..]);
    stage := Ok;
  }

  /** `whole` is what scanning everything gives if the first `done` blocks are behind and the
      rest gives `rest`. */
  ghost predicate Ahead(whole: Scan, rest: Scan, done: nat) {
    match rest
    case Blocks(more, tail) => whole.Blocks? && |whole.blocks| == done + |more| && whole.blocks[done..] == more
    case other => whole == other
  }

  lemma PrefixOf(data: string, at: nat, marker: string)
    requires at <= |data|
    ensures StartsWith(data[at..], marker) <==> at + |marker| <= |data| && data[at..at + |marker|] == marker
  {
    if at + |marker| <= |data| { assert data[at..][..|marker|] == data[at..at + |marker|]; }
  }

  method SkipSpace(data: string, from: nat) returns (pos: nat)
    requires from <= |data|
    ensures from <= pos <= |data| && pos - from == SpaceCount(data[from..])
  {
    pos := from;
    while pos < |data| && IsSpace(data[pos])
      invariant from <= pos <= |data| && pos - from + SpaceCount(data[pos..]) == SpaceCount(data[from..])
    {
      assert data[pos..][1..] == data[pos + 1..] && data[pos..][0] == data[pos];
      pos := pos + 1;
    }
    assert pos < |data| ==> data[pos..][0] == data[pos];
  }

  method FindFrom(data: string, from: nat, sub: string) returns (r: Option<nat>)
    requires from <= |data|
    ensures r.Some? <==> Find(data[from..], sub).Some?
    ensures r.Some? ==> from <= r.value && r.value + |sub| <= |data|
    ensures r.Some? ==> r.value - from == Find(data[from..], sub).value
  {
    hide Find, StartsWith;
    var pos := from;
    while pos <= |data|
      invariant from <= pos <= |data| + 1
      invariant pos <= |data| ==> FindShifts(data, from, pos, sub)
      invariant pos > |data| ==> Find(data[from..], sub).None?
    {
      PrefixOf(data, pos, sub);
      FindNext(data, pos, sub);
      if pos + |sub| <= |data| && data[pos..pos + |sub|] == sub { return Some(pos); }
      pos := pos + 1;
    }
    r := None;
  }

  lemma FindNext(data: string, pos: nat, sub: string)
    requires pos <= |data|
    ensures StartsWith(data[pos..], sub) ==> Find(data[pos..], sub) == Some(0)
    ensures !StartsWith(data[pos..], sub) && pos == |data| ==> Find(data[pos..], sub) == None
    ensures !StartsWith(data[pos..], sub) && pos < |data| ==>
      var next := Find(data[pos + 1..], sub);
      Find(data[pos..], sub) == if next.None? then None else Some(next.value + 1)
  {
    if pos < |data| { assert data[pos..][1..] == data[pos + 1..]; }
  }

  ghost predicate FindShifts(data: string, from: nat, pos: nat, sub: string)
    requires from <= pos <= |data|
  {
    var here := Find(data[pos..], sub);
    Find(data[from..], sub) == if here.None? then None else Some(here.value + (pos - from))
  }

  method ContentOnly(data: string, from: nat, to: nat) returns (ok: bool)
    requires from <= to <= |data|
    ensures ok <==> AllContent(data[from..to])
  {
    var i := from;
    while i < to
      invariant from <= i <= to && forall k :: from <= k < i ==> IsContent(data[k])
    {
      if !IsContent(data[i]) {
        assert data[from..to][i - from] == data[i];
        return false;
      }
      i := i + 1;
    }
    ok := true;
  }

  // ---- writing PEM and reading it back ----

  function Pem(der: seq<byte>, kind: string): string {
    "-----BEGIN " + kind + "-----\n" + Encode(der) + ("\n-----END " + kind + "-----\n")
  }

  method DerToPem(der: seq<byte>, kind: string) returns (pem: string)
    requires |der| < 0x8000_0000
    ensures pem == Pem(der, kind)
  {
    hide Encode;
    pem := "-----BEGIN " + kind + "-----\n";
    var text := EncodeLoop(der);
    pem := pem + text + ("\n-----END " + kind + "-----\n");
  }

  function PemBlock(der: seq<byte>): Block { Block("", "\n" + (Encode(der) + "\n")) }

  lemma PemIsOneBlock(der: seq<byte>)
    ensures Pem(der, "CERTIFICATE") == Render([PemBlock(der)], "\n")
  {
    hide Encode;
    var e := Encode(der);
    assert "-----BEGIN " + "CERTIFICATE" + "-----\n" == BEGIN_CERT + "\n";
    assert "\n-----END " + "CERTIFICATE" + "-----\n" == "\n" + (END_CERT + "\n");
    var blocks := [PemBlock(der)];
    assert blocks[1..] == [];
    assert Render(blocks[1..], "\n") == "\n";
    assert Render(blocks, "\n") == "" + (BEGIN_CERT + (("\n" + (e + "\n")) + (END_CERT + "\n")));
    assert (BEGIN_CERT + "\n") + e + ("\n" + (END_CERT + "\n"))
        == BEGIN_CERT + (("\n" + (e + "\n")) + (END_CERT + "\n"));
  }

  lemma SymbolIsContent(v: sextet)
    ensures IsContent(Symbol(v))
  {
  }

  lemma {:induction false} EncodedIsContent(bytes: seq<byte>)
    ensures AllContent(Encode(bytes))
    decreases |bytes|
  {
    forall v: sextet ensures IsContent(Symbol(v)) { SymbolIsContent(v); }
    hide IsContent, Split3, Symbol;
    assert IsContent('=') by { EqualsIsContent(); }
    if |bytes| >= 3 { EncodedIsContent(bytes[3..]); }
  }

  lemma EqualsIsContent()
    ensures IsContent('=')
  {
  }

  lemma LineBreaks(text: string)
    ensures Digits("\n" + text) == Digits(text) && Digits("\n") == [] && AllSpace("\n") && IsContent('\n')
  {
    assert ("\n" + text)[1..] == text;
    assert "\n"[1..] == "";
  }

  /** Every byte string written as a certificate block scans as exactly one block, whose
      content decodes to the same bytes; the decoder reports success unless there were none. */
  lemma PemRoundTrip(der: seq<byte>, maxCertificates: nat)
    requires maxCertificates >= 1
    ensures ScanFrom(Pem(der, "CERTIFICATE"), maxCertificates) == Blocks([PemBlock(der)], "\n")
    ensures Decode(PemBlock(der).body) == der
  {
    hide Encode, ScanFrom, Flow, Digits;
    PemIsOneBlock(der);
    EncodedIsContent(der);
    LineBreaks(Encode(der) + "\n");
    RenderedScans([PemBlock(der)], "\n", maxCertificates);
    EncodedDecodes(der, "\n");
  }

  /** The same of the loops: the tool's output, scanned and decoded, is what went in. */
  method WriteAndRead(der: seq<byte>, maxCertificates: nat) returns (ok: bool, back: seq<byte>)
    requires 1 <= |der| < 0x8000_0000 && maxCertificates >= 1
    ensures ok && back == der
  {
    hide Encode, ScanFrom, Flow, Digits, Pem;
    PemRoundTrip(der, maxCertificates);
    var pem := DerToPem(der, "CERTIFICATE");
    var stage, count, from, to := ScanBlocks(pem, maxCertificates);
    ok, back := DecodeLoop(pem[from..to]);
  }
}
