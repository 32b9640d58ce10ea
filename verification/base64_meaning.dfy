/** What the base-64 loops compute, in the terms of section 4 of RFC 4648: its alphabet, and
    groups of 24 bits as four symbols, first bit highest; and how lenient the decoder is. */
module Base64Meaning {
  import opened Wrappers
  import opened Base64
  import opened PemScanner

  function Alphabet(): string { "ABCDEFGHIJKLMNOPQRSTUVWXYZ" + "abcdefghijklmnopqrstuvwxyz" + "0123456789+/" }

  lemma Upper(v: nat)
    requires v < 26
    ensures |Alphabet()| == 64 && Alphabet()[v] == (65 + v) as char
  {
    assert
      v == 0 || v == 1 || v == 2 || v == 3 || v == 4 || v == 5 || v == 6 || v == 7 || v == 8 || v == 9 ||
      v == 10 || v == 11 || v == 12 || v == 13 || v == 14 || v == 15 || v == 16 || v == 17 || v == 18 ||
      v == 19 || v == 20 || v == 21 || v == 22 || v == 23 || v == 24 || v == 25;
  }

  lemma Lower(v: nat)
    requires 26 <= v < 52
    ensures Alphabet()[v] == (97 + v - 26) as char
  {
    assert
      v == 26 || v == 27 || v == 28 || v == 29 || v == 30 || v == 31 || v == 32 || v == 33 || v == 34 ||
      v == 35 || v == 36 || v == 37 || v == 38 || v == 39 || v == 40 || v == 41 || v == 42 || v == 43 ||
      v == 44 || v == 45 || v == 46 || v == 47 || v == 48 || v == 49 || v == 50 || v == 51;
  }

  lemma Rest(v: nat)
    requires 52 <= v < 64
    ensures Alphabet()[v] == if v < 62 then (48 + v - 52) as char else if v == 62 then '+' else '/'
  {
    assert
      v == 52 || v == 53 || v == 54 || v == 55 || v == 56 || v == 57 || v == 58 || v == 59 || v == 60 ||
      v == 61 || v == 62 || v == 63;
  }

  lemma SymbolIs(v: sextet)
    ensures |Alphabet()| == 64 && Symbol(v) == Alphabet()[v]
  {
    Upper(0);
    if v < 26 { Upper(v); } else if v < 52 { Lower(v); } else { Rest(v); }
  }

  lemma DecodedSymbol(c: char)
    ensures Decoded(c) >= 0 ==> Decoded(c) < 64 && Symbol(Decoded(c)) == c
  {
  }

  /** A symbol's value is its place in the alphabet; nothing else has one. */
  lemma DecodedIs(c: char)
    ensures Decoded(c) >= 0 <==> c in Alphabet()
    ensures Decoded(c) >= 0 ==> Decoded(c) < 64 == |Alphabet()| && Alphabet()[Decoded(c)] == c
  {
    hide Alphabet, Symbol, Decoded;
    DecodedSymbol(c);
    if Decoded(c) >= 0 { SymbolIs(Decoded(c)); }
    if c in Alphabet() {
      SymbolIs(0);
      var v :| 0 <= v < |Alphabet()| && Alphabet()[v] == c;
      SymbolIs(v);
      SymbolDecodes(v);
    }
  }

  // ---- what is written ----

  function Number(a: nat, b: nat, c: nat): nat { a * 65536 + b * 256 + c }

  /** Four symbols stand for one to three bytes: the bytes, filled up with zeros, as one 24-bit
      number, cut into four values; values that hold no bit of a byte are written as '='. */
  ghost predicate GroupStands(t: string, b: seq<byte>) {
    |t| == 4 && 1 <= |b| <= 3 && |Alphabet()| == 64 &&
    var v := Number(b[0], if |b| > 1 then b[1] else 0, if |b| > 2 then b[2] else 0);
    && t[0] == Alphabet()[v / 262144]
    && t[1] == Alphabet()[v / 4096 % 64]
    && t[2] == (if |b| > 1 then Alphabet()[v / 64 % 64] else '=')
    && t[3] == (if |b| > 2 then Alphabet()[v % 64] else '=')
  }

  lemma SplitIs(a: byte, b: byte, c: byte)
    ensures var v := Number(a, b, c);
            Split3(a, b, c) == [v / 262144, v / 4096 % 64, v / 64 % 64, v % 64]
  {
    var v := Number(a, b, c);
    RemainderIs(v, 262144, a / 4, a % 4 * 65536 + b * 256 + c);
    RemainderIs(v, 4096, a * 16 + b / 16, b % 16 * 256 + c);
    RemainderIs(a * 16 + b / 16, 64, a / 4, a % 4 * 16 + b / 16);
    RemainderIs(v, 64, a * 1024 + b * 4 + c / 64, c % 64);
    RemainderIs(a * 1024 + b * 4 + c / 64, 64, a * 16 + b / 16, b % 16 * 4 + c / 64);
  }

  lemma FirstGroup(bytes: seq<byte>)
    requires bytes != []
    ensures var n := if |bytes| < 3 then |bytes| else 3;
            && |Encode(bytes)| >= 4 && GroupStands(Encode(bytes)[..4], bytes[..n])
            && Encode(bytes)[4..] == Encode(bytes[n..])
  {
    hide Split3, Symbol, Alphabet;
    var a := bytes[0];
    var b := if |bytes| > 1 then bytes[1] else 0;
    var c := if |bytes| > 2 then bytes[2] else 0;
    var vs := Split3(a, b, c);
    SplitIs(a, b, c);
    SymbolIs(vs[0]);
    SymbolIs(vs[1]);
    SymbolIs(vs[2]);
    SymbolIs(vs[3]);
  }

  lemma Later<T>(s: seq<T>, n: nat, from: nat, to: nat)
    requires n <= from <= to <= |s|
    ensures s[from..to] == s[n..][from - n..to - n]
  {
  }

  lemma {:induction false} EncodedLength(bytes: seq<byte>)
    ensures |Encode(bytes)| == (|bytes| + 2) / 3 * 4
    decreases |bytes|
  {
    hide Symbols, Split3;
    if |bytes| >= 3 { EncodedLength(bytes[3..]); }
  }

  /** The whole text: four symbols per started three bytes, group by group. */
  lemma {:induction false} EncodedStands(bytes: seq<byte>, g: nat)
    requires 3 * g < |bytes|
    ensures |Encode(bytes)| == (|bytes| + 2) / 3 * 4
    ensures var last := if 3 * g + 3 < |bytes| then 3 * g + 3 else |bytes|;
            4 * g + 4 <= |Encode(bytes)| && GroupStands(Encode(bytes)[4 * g..4 * g + 4], bytes[3 * g..last])
    decreases |bytes|
  {
    hide Encode, GroupStands;
    EncodedLength(bytes);
    FirstGroup(bytes);
    if g > 0 {
      var last := if 3 * g + 3 < |bytes| then 3 * g + 3 else |bytes|;
      EncodedStands(bytes[3..], g - 1);
      Later(bytes, 3, 3 * g, last);
      Later(Encode(bytes), 4, 4 * g, 4 * g + 4);
    }
  }

  // ---- what is read ----

  lemma {:induction false} ForeignIgnored(a: string, c: char, b: string)
    requires c !in Alphabet() && c != '='
    ensures Digits(a + [c] + b) == Digits(a + b)
    decreases |a|
  {
    hide Decoded, Alphabet;
    if a == "" {
      DecodedIs(c);
      assert (a + [c] + b)[1..] == b && a + b == b;
    } else {
      assert (a + [c] + b)[1..] == a[1..] + [c] + b && (a + b)[1..] == a[1..] + b;
      ForeignIgnored(a[1..], c, b);
    }
  }

  lemma {:induction false} PadEnds(a: string, b: string)
    ensures Digits(a + ['='] + b) == Digits(a)
    decreases |a|
  {
    hide Decoded, Alphabet;
    if a != "" {
      assert (a + ['='] + b)[1..] == a[1..] + ['='] + b;
      PadEnds(a[1..], b);
    }
  }

  lemma {:induction false} DigitsArePlaces(text: string)
    requires forall i :: 0 <= i < |text| ==> text[i] in Alphabet()
    ensures |Digits(text)| == |text| && |Alphabet()| == 64
    ensures forall i :: 0 <= i < |text| ==> Alphabet()[Digits(text)[i]] == text[i]
    decreases |text|
  {
    hide Decoded, Alphabet;
    Upper(0);
    if text != "" {
      DecodedIs(text[0]);
      PadIsForeign();
      DigitsArePlaces(text[1..]);
    }
  }

  lemma PadIsForeign()
    ensures '=' !in Alphabet()
  {
    hide Alphabet;
    DecodedIs('=');
  }

  /** Eight bits out of two neighbouring values: the first byte of a group, the second, the third. */
  function High(v: nat, w: nat): nat { v * 4 + w / 16 }

  function Middle(v: nat, w: nat): nat { v % 16 * 16 + w / 4 }

  function Low(v: nat, w: nat): nat { v % 4 * 64 + w }

  lemma HighNext(a: sextet, b: sextet, more: seq<sextet>)
    ensures Pending(a, 6) && Pending(b % 16, 4) && High(a, b) < 256
    ensures Flow([b] + more, a, 6) == [High(a, b)] + Flow(more, b % 16, 4)
  {
    hide Flow, High, Middle, Low, Two, Pending;
    CutAll(a, b, 0, 0);
    FlowNext(b, more, a, 6);
  }

  lemma MiddleNext(b: sextet, c: sextet, more: seq<sextet>)
    ensures Pending(b % 16, 4) && Pending(c % 4, 2) && Middle(b, c) < 256
    ensures Flow([c] + more, b % 16, 4) == [Middle(b, c)] + Flow(more, c % 4, 2)
  {
    hide Flow, High, Middle, Low, Two, Pending;
    CutAll(0, b, c, 0);
    FlowNext(c, more, b % 16, 4);
  }

  lemma LowNext(c: sextet, d: sextet, more: seq<sextet>)
    ensures Pending(c % 4, 2) && Pending(0, 0) && Low(c, d) < 256
    ensures Flow([d] + more, c % 4, 2) == [Low(c, d)] + Flow(more, 0, 0)
  {
    hide Flow, High, Middle, Low, Two, Pending;
    CutAll(0, 0, c, d);
    FlowNext(d, more, c % 4, 2);
  }

  lemma FourNext(a: sextet, b: sextet, c: sextet, d: sextet, more: seq<sextet>)
    ensures High(a, b) < 256 && Middle(b, c) < 256 && Low(c, d) < 256
    ensures Flow([a] + ([b] + ([c] + ([d] + more))), 0, 0)
            == [High(a, b)] + ([Middle(b, c)] + ([Low(c, d)] + Flow(more, 0, 0)))
  {
    hide Flow, High, Middle, Low, Two;
    FlowNext(a, [b] + ([c] + ([d] + more)), 0, 0);
    HighNext(a, b, [c] + ([d] + more));
    MiddleNext(b, c, [d] + more);
    LowNext(c, d, more);
  }

  lemma FirstFour<T>(s: seq<T>)
    requires |s| >= 4
    ensures s == [s[0]] + ([s[1]] + ([s[2]] + ([s[3]] + s[4..])))
  {
  }

  lemma FourValues(vs: seq<sextet>)
    requires |vs| >= 4
    ensures Flow(vs, 0, 0) == [High(vs[0], vs[1]), Middle(vs[1], vs[2]), Low(vs[2], vs[3])] + Flow(vs[4..], 0, 0)
  {
    hide Flow, High, Middle, Low, Two;
    FirstFour(vs);
    FourNext(vs[0], vs[1], vs[2], vs[3], vs[4..]);
    ThreeBytes(High(vs[0], vs[1]), Middle(vs[1], vs[2]), Low(vs[2], vs[3]), Flow(vs[4..], 0, 0));
  }

  lemma ThreeBytes(x: byte, y: byte, z: byte, rest: seq<byte>)
    ensures [x] + ([y] + ([z] + rest)) == [x, y, z] + rest
  {
  }

  lemma CutAll(a: sextet, b: sextet, c: sextet, d: sextet)
    ensures (a * 64 + b) / Two(4) == High(a, b) && (a * 64 + b) % Two(4) == b % 16
    ensures (b % 16 * 64 + c) / Two(2) == Middle(b, c) && (b % 16 * 64 + c) % Two(2) == c % 4
    ensures (c % 4 * 64 + d) / Two(0) == Low(c, d) && (c % 4 * 64 + d) % Two(0) == 0
    ensures High(a, b) < 256 && Middle(b, c) < 256 && Low(c, d) < 256
    ensures Pending(0, 0) && Pending(a, 6) && Pending(b % 16, 4) && Pending(c % 4, 2)
  {
    Cut(a, b, 16);
    Cut(b % 16, c, 4);
  }

  lemma Cut(p: nat, v: sextet, d: nat)
    requires d in {4, 16}
    ensures (p * 64 + v) / d == p * (64 / d) + v / d && (p * 64 + v) % d == v % d
  {
    RemainderIs(p * 64 + v, d, p * (64 / d) + v / d, v % d);
  }

  /** Byte `k` of what comes out is bits 8k to 8k + 7 of the values one after the other; bits that
      do not fill a byte are dropped. */
  lemma {:induction false} DecodedStands(vs: seq<sextet>, k: nat)
    requires k < |Flow(vs, 0, 0)|
    ensures var i := k / 3 * 4;
            |vs| > i + k % 3 + 1 &&
            Flow(vs, 0, 0)[k] == if k % 3 == 0 then High(vs[i], vs[i + 1])
                                 else if k % 3 == 1 then Middle(vs[i + 1], vs[i + 2])
                                 else Low(vs[i + 2], vs[i + 3])
    decreases |vs|
  {
    hide Flow, High, Middle, Low;
    FlowLength(vs, 0, 0);
    if |vs| < 4 {
      ShortValues(vs);
    } else {
      FourValues(vs);
      var rest := vs[4..];
      if k >= 3 {
        DecodedStands(rest, k - 3);
        OneGroupBack(k);
        var i := (k - 3) / 3 * 4;
        assert rest[i] == vs[i + 4] && rest[i + 1] == vs[i + 5];
        assert k % 3 >= 1 ==> rest[i + 2] == vs[i + 6];
        assert k % 3 == 2 ==> rest[i + 3] == vs[i + 7];
      }
    }
  }

  lemma OneGroupBack(k: nat)
    requires k >= 3
    ensures (k - 3) / 3 * 4 + 4 == k / 3 * 4 && (k - 3) % 3 == k % 3
  {
  }

  lemma ShortValues(vs: seq<sextet>)
    requires |vs| < 4
    ensures |vs| >= 2 ==> |Flow(vs, 0, 0)| >= 1 && Flow(vs, 0, 0)[0] == High(vs[0], vs[1])
    ensures |vs| >= 3 ==> |Flow(vs, 0, 0)| == 2 && Flow(vs, 0, 0)[1] == Middle(vs[1], vs[2])
    ensures |Flow(vs, 0, 0)| == (if |vs| == 3 then 2 else if |vs| == 2 then 1 else 0)
  {
    hide Flow;
    FlowLength(vs, 0, 0);
    if |vs| >= 2 {
      var m2 := vs[2..];
      assert vs == [vs[0]] + ([vs[1]] + m2);
      FlowNext(vs[0], [vs[1]] + m2, 0, 0);
      FlowNext(vs[1], m2, vs[0], 6);
      CutAll(vs[0], vs[1], if |vs| == 3 then vs[2] else 0, 0);
      if |vs| == 3 {
        assert m2 == [vs[2]] + [];
        FlowNext(vs[2], [], vs[1] % 16, 4);
      }
    }
  }

  /** What may stand in a block: the alphabet, '=' and six kinds of white space. */
  lemma ContentExactly(c: char)
    ensures IsContent(c) <==> c in Alphabet() || c == '=' || c as int in {9, 10, 11, 12, 13, 32}
  {
    hide Alphabet;
    DecodedIs(c);
  }
}
