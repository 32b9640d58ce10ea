/** Base 64 of section 4 of RFC 4648: the command-line tool's encoder and the chain parser's
    lenient decoder, each as the loop it is. */
module Base64 {
  import opened Wrappers

  import C = CanonicalEncoding

  type sextet = x: int | 0 <= x < 64

  function Symbol(v: sextet): char {
    if v < 26 then (65 + v) as char
    else if v < 52 then (97 + v - 26) as char
    else if v < 62 then (48 + v - 52) as char
    else if v == 62 then '+'
    else '/'
  }

  /** The value of a symbol, -1 for anything else ('=' included). */
  function Decoded(c: char): int {
    if 'A' <= c <= 'Z' then c as int - 65
    else if 'a' <= c <= 'z' then c as int - 97 + 26
    else if '0' <= c <= '9' then c as int - 48 + 52
    else if c == '+' then 62
    else if c == '/' then 63
    else -1
  }

  lemma SymbolDecodes(v: sextet)
    ensures Decoded(Symbol(v)) == v && Symbol(v) != '='
  {
  }

  // ---- encoding ----

  /** The four values of three bytes. */
  function Split3(a: byte, b: byte, c: byte): (r: seq<sextet>)
    ensures |r| == 4
  {
    [a / 4, a % 4 * 16 + b / 16, b % 16 * 4 + c / 64, c % 64]
  }

  function Symbols(vs: seq<sextet>): (r: string)
    ensures |r| == |vs|
  {
    seq(|vs|, i requires 0 <= i < |vs| => Symbol(vs[i]))
  }

  /** Three bytes become four symbols; a rest of one or two is padded to four with '='. */
  function Encode(bytes: seq<byte>): string {
    if |bytes| == 0 then ""
    else if |bytes| == 1 then Symbols(Split3(bytes[0], 0, 0)[..2]) + "=="
    else if |bytes| == 2 then Symbols(Split3(bytes[0], bytes[1], 0)[..3]) + "="
    else Symbols(Split3(bytes[0], bytes[1], bytes[2])) + Encode(bytes[3..])
  }

  lemma EncodeStep(s: seq<byte>)
    requires |s| >= 3
    ensures Encode(s) == Symbols(Split3(s[0], s[1], s[2])) + Encode(s[3..])
  {
    hide Symbols, Split3;
  }

  lemma {:induction false} EncodeAppends(done: seq<byte>, rest: seq<byte>)
    requires |done| % 3 == 0
    ensures Encode(done + rest) == Encode(done) + Encode(rest)
    decreases |done|
  {
    hide Symbols, Split3, Encode;
    if done == [] {
      assert done + rest == rest;
      assert Encode([]) == "" by { EncodeNothing(); }
    } else {
      var t := done + rest;
      EncodeStep(t);
      EncodeStep(done);
      assert t[3..] == done[3..] + rest;
      EncodeAppends(done[3..], rest);
    }
  }

  lemma EncodeNothing()
    ensures Encode([]) == ""
  {
  }

  lemma EncodeThree(a: byte, b: byte, c: byte)
    ensures Encode([a, b, c]) == Symbols(Split3(a, b, c))
  {
    assert [a, b, c][3..] == [];
    EncodeNothing();
  }

  /** What the rest of one or two bytes becomes, the array being filled up with zeros. */
  lemma EncodeRest(rest: seq<byte>, a: byte, b: byte)
    requires 1 <= |rest| <= 2 && a == rest[0] && b == if |rest| == 2 then rest[1] else 0
    ensures Encode(rest) == Symbols(Split3(a, b, 0)[..|rest| + 1]) + (if |rest| == 1 then "==" else "=")
  {
  }

  /** The encoder's loop: bytes gather in an array of three, four symbols leave at a time. */
  method EncodeLoop(bytes: seq<byte>) returns (text: string)
    ensures text == Encode(bytes)
  {
    hide Encode, Symbols, Split3;
    EncodeNothing();
    text := "";
    var chars := new byte[3](_ => 0);
    var i, pos := 0, 0;
    while pos < |bytes|
      invariant 0 <= i < 3 && i <= pos <= |bytes| && (pos - i) % 3 == 0
      invariant chars[..i] == bytes[pos - i..pos]
      invariant text == Encode(bytes[..pos - i])
    {
      chars[i] := bytes[pos];
      assert chars[..i + 1] == bytes[pos - i..pos + 1];
      i, pos := i + 1, pos + 1;
      if i == 3 {
        text := text + Symbols(Split3(chars[0], chars[1], chars[2]));
        TakenGroup(bytes, pos, chars[..3]);
        i := 0;
      }
    }
    assert bytes == bytes[..pos - i] + bytes[pos - i..];
    EncodeAppends(bytes[..pos - i], bytes[pos - i..]);
    if i > 0 {
      var last := EncodeTail(chars, i, bytes[pos - i..]);
      text := text + last;
    }
  }

  /** The rest in the array, filled up with zeros and padded. */
  method EncodeTail(chars: array<byte>, i: nat, ghost rest: seq<byte>) returns (text: string)
    requires chars.Length == 3 && 1 <= i <= 2 && chars[..i] == rest
    modifies chars
    ensures text == Encode(rest)
  {
    hide Encode, Symbols, Split3;
    var j := i;
    while j < 3
      invariant i <= j <= 3 && chars[..i] == rest
      invariant forall k :: i <= k < j ==> chars[k] == 0
    {
      chars[j] := 0;
      j := j + 1;
    }
    assert chars[0] == chars[..i][0] && (i == 2 ==> chars[1] == chars[..i][1]);
    EncodeRest(rest, chars[0], chars[1]);
    text := Symbols(Split3(chars[0], chars[1], chars[2])[..i + 1]);
    text := text + (if i == 1 then "==" else "=");
  }

  lemma TakenGroup(bytes: seq<byte>, pos: nat, group: seq<byte>)
    requires 3 <= pos <= |bytes| && pos % 3 == 0 && |group| == 3 && group == bytes[pos - 3..pos]
    ensures Encode(bytes[..pos]) == Encode(bytes[..pos - 3]) + Symbols(Split3(group[0], group[1], group[2]))
  {
    hide Encode, Symbols, Split3;
    assert bytes[..pos] == bytes[..pos - 3] + group;
    assert group == [group[0], group[1], group[2]];
    EncodeAppends(bytes[..pos - 3], group);
    EncodeThree(group[0], group[1], group[2]);
  }

  // ---- decoding ----

  /** The values a decoder sees: up to the first '=', skipping everything else it does not
      know. */
  function Digits(text: string): seq<sextet> {
    if text == "" || text[0] == '=' then []
    else if Decoded(text[0]) < 0 then Digits(text[1..])
    else [Decoded(text[0])] + Digits(text[1..])
  }

  function Two(bits: nat): (p: nat)
    requires bits <= 6
    ensures p > 0
  {
    if bits == 0 then 1 else if bits <= 1 then 2 else if bits == 2 then 4 else if bits == 3 then 8
    else if bits == 4 then 16 else if bits == 5 then 32 else 64
  }

  predicate Pending(p: nat, bits: nat) { bits in {0, 2, 4, 6} && p < Two(bits) }

  /** The bytes in a stream of values, `p` being the `bits` bits left over so far. */
  function Flow(vs: seq<sextet>, p: nat, bits: nat): seq<byte>
    requires Pending(p, bits)
    decreases |vs|
  {
    if vs == [] then []
    else
      var v := p * 64 + vs[0];
      if bits == 0 then Flow(vs[1..], v, 6)
      else [v / Two(bits - 2)] + Flow(vs[1..], v % Two(bits - 2), bits - 2)
  }

  function Decode(text: string): seq<byte> { Flow(Digits(text), 0, 0) }

  const TWO32 := 0x1_0000_0000

  lemma Mod32(x: nat, m: nat, c: nat)
    requires m > 0 && m * c == TWO32
    ensures (x % TWO32) % m == x % m
  {
    var k := x / TWO32;
    assert x == TWO32 * k + x % TWO32;
    assert TWO32 * k == m * (c * k);
    ModAdds(x % TWO32, m, c * k);
  }

  lemma ModAdds(r: nat, m: nat, j: nat)
    requires m > 0
    ensures (r + m * j) % m == r % m
  {
    var y := r + m * j;
    assert m * (r / m + j) == m * (r / m) + m * j;
    C.QuotientIs(y, m, r / m + j, r % m);
    assert y == m * (y / m) + y % m;
  }

  lemma RemainderIs(v: nat, d: nat, q: nat, r: nat)
    requires d > 0 && v == d * q + r && r < d
    ensures v / d == q && v % d == r
  {
    C.QuotientIs(v, d, q, r);
  }

  lemma Shifted(acc: nat, v: sextet, t: nat)
    requires t > 0
    ensures 64 * t > 0 && (acc * 64 + v) % (64 * t) == acc % t * 64 + v
  {
    var q, p := acc / t, acc % t;
    assert acc == t * q + p;
    assert (t * q) * 64 == (64 * t) * q;
    RemainderIs(acc * 64 + v, 64 * t, q, p * 64 + v);
  }

  /** The high bits are lost to the 32-bit width, the `bits + 6` low ones are not. */
  lemma LowBitsSurvive(acc: nat, v: sextet, bits: nat)
    requires bits in {0, 2, 4, 6}
    ensures (acc * 64 + v) % TWO32 % (64 * Two(bits)) == acc % Two(bits) * 64 + v
  {
    Shifted(acc, v, Two(bits));
    var c := if bits == 0 then 0x400_0000 else if bits == 2 then 0x100_0000
             else if bits == 4 then 0x40_0000 else 0x10_0000;
    assert 64 * Two(bits) * c == TWO32;
    Mod32(acc * 64 + v, 64 * Two(bits), c);
  }

  /** So the byte taken from the accumulator and what stays pending are right. */
  lemma TopByte(next: nat, w: nat, bits: nat)
    requires bits in {2, 4, 6} && next % (64 * Two(bits)) == w
    ensures next / Two(bits - 2) % 256 == w / Two(bits - 2) && next % Two(bits - 2) == w % Two(bits - 2)
  {
    if bits == 4 {
      CutFour(next, w);
    } else if bits == 6 {
      CutSixteen(next, w);
    }
  }

  lemma CutFour(next: nat, w: nat)
    requires next % 1024 == w
    ensures next / 4 % 256 == w / 4 && next % 4 == w % 4
  {
    var q := next / 1024;
    RemainderIs(next, 4, 256 * q + w / 4, w % 4);
    RemainderIs(next / 4, 256, q, w / 4);
  }

  lemma CutSixteen(next: nat, w: nat)
    requires next % 4096 == w
    ensures next / 16 % 256 == w / 16 && next % 16 == w % 16
  {
    var q := next / 4096;
    RemainderIs(next, 16, 256 * q + w / 16, w % 16);
    RemainderIs(next / 16, 256, q, w / 16);
  }

  lemma FlowNext(v: sextet, more: seq<sextet>, p: nat, bits: nat)
    requires Pending(p, bits)
    ensures bits == 0 ==> Pending(v, 6) && Flow([v] + more, p, bits) == Flow(more, v, 6)
    ensures bits > 0 ==> Pending((p * 64 + v) % Two(bits - 2), bits - 2) && (p * 64 + v) / Two(bits - 2) < 256
    ensures bits > 0 ==>
      Flow([v] + more, p, bits)
      == [(p * 64 + v) / Two(bits - 2)] + Flow(more, (p * 64 + v) % Two(bits - 2), bits - 2)
  {
    assert ([v] + more)[1..] == more && ([v] + more)[0] == v;
  }

  /** The decoder's loop over a 32-bit accumulator that overflows; false when nothing came
      out. */
  method DecodeLoop(text: string) returns (ok: bool, out: seq<byte>)
    ensures out == Decode(text) && ok == (out != [])
  {
    hide Decoded, Flow, Two;
    TwoPositive();
    out := [];
    var acc, bits := 0, 0;
    var i := 0;
    assert text[0..] == text;
    while i < |text|
      invariant 0 <= i <= |text| && 0 <= acc < TWO32 && bits in {0, 2, 4, 6}
      invariant Pending(acc % Two(bits), bits)
      invariant out + Flow(Digits(text[i..]), acc % Two(bits), bits) == Decode(text)
    {
      var v := Decoded(text[i]);
      DigitsNext(text, i);
      if text[i] == '=' { break; }
      if v >= 0 {
        DecodedRange(text[i]);
        AccumulatorStep(acc, v, bits, Digits(text[i + 1..]));
        acc := (acc * 64 + v) % TWO32;
        bits := bits + 6;
        if bits >= 8 {
          bits := bits - 8;
          out := out + [acc / Two(bits) % 256];
        }
      }
      i := i + 1;
    }
    assert Digits(text[i..]) == [];
    FlowEnds(acc % Two(bits), bits);
    assert out + [] == out;
    ok := out != [];
  }

  /** One value more: what the accumulator yields and keeps is what the bit stream does. */
  lemma AccumulatorStep(acc: nat, v: sextet, bits: nat, more: seq<sextet>)
    requires bits in {0, 2, 4, 6} && Pending(acc % Two(bits), bits)
    ensures var next := (acc * 64 + v) % TWO32;
            && (bits == 0 ==>
                  Pending(next % Two(6), 6) && Flow([v] + more, acc % Two(bits), bits) == Flow(more, next % Two(6), 6))
            && (bits > 0 ==>
                  Pending(next % Two(bits - 2), bits - 2)
                  && Flow([v] + more, acc % Two(bits), bits)
                     == [next / Two(bits - 2) % 256] + Flow(more, next % Two(bits - 2), bits - 2))
  {
    hide Flow;
    var p := acc % Two(bits);
    LowBitsSurvive(acc, v, bits);
    FlowNext(v, more, p, bits);
    if bits > 0 { TopByte((acc * 64 + v) % TWO32, p * 64 + v, bits); }
  }

  lemma TwoPositive()
    ensures Two(0) == 1 && Two(6) == 64
  {
  }

  lemma FlowEnds(p: nat, bits: nat)
    requires Pending(p, bits)
    ensures Flow([], p, bits) == []
  {
  }

  lemma DecodedRange(c: char)
    ensures Decoded(c) < 64
  {
  }

  lemma DigitsNext(text: string, i: nat)
    requires i < |text|
    ensures text[i] == '=' ==> Digits(text[i..]) == []
    ensures text[i] != '=' && Decoded(text[i]) < 0 ==> Digits(text[i..]) == Digits(text[i + 1..])
    ensures text[i] != '=' && Decoded(text[i]) >= 0 ==> Digits(text[i..]) == [Decoded(text[i])] + Digits(text[i + 1..])
  {
    assert text[i..][0] == text[i] && text[i..][1..] == text[i + 1..];
  }

  // ---- one undoes the other ----

  lemma FlowGroup(a: byte, b: byte, c: byte, more: seq<sextet>)
    ensures Flow(Split3(a, b, c) + more, 0, 0) == [a, b, c] + Flow(more, 0, 0)
  {
    hide Flow;
    var vs := Split3(a, b, c);
    var m1, m2, m3 := [vs[1]] + ([vs[2]] + ([vs[3]] + more)), [vs[2]] + ([vs[3]] + more), [vs[3]] + more;
    assert vs + more == [vs[0]] + m1;
    FlowNext(vs[0], m1, 0, 0);
    FlowNext(vs[1], m2, vs[0], 6);
    GroupBytes(a, b, c);
    FlowNext(vs[2], m3, b / 16, 4);
    FlowNext(vs[3], more, c / 64, 2);
    assert [a] + ([b] + ([c] + Flow(more, 0, 0))) == [a, b, c] + Flow(more, 0, 0);
  }

  /** Where the bits of three bytes are, after two, three and four values. */
  lemma GroupBytes(a: byte, b: byte, c: byte)
    ensures var vs := Split3(a, b, c);
            && (vs[0] * 64 + vs[1]) / Two(4) == a && (vs[0] * 64 + vs[1]) % Two(4) == b / 16
            && (b / 16 * 64 + vs[2]) / Two(2) == b && (b / 16 * 64 + vs[2]) % Two(2) == c / 64
            && (c / 64 * 64 + vs[3]) / Two(0) == c && (c / 64 * 64 + vs[3]) % Two(0) == 0
            && Pending(vs[0], 6) && Pending(b / 16, 4) && Pending(c / 64, 2)
  {
  }

  lemma {:induction false} SymbolsAreDigits(vs: seq<sextet>, rest: string)
    ensures Digits(Symbols(vs) + rest) == vs + Digits(rest)
    decreases |vs|
  {
    var t := Symbols(vs) + rest;
    if vs == [] {
      assert t == rest;
    } else {
      SymbolDecodes(vs[0]);
      assert t[1..] == Symbols(vs[1..]) + rest;
      SymbolsAreDigits(vs[1..], rest);
      assert vs == [vs[0]] + vs[1..];
    }
  }

  lemma PaddingEnds(rest: string)
    ensures Digits("=" + rest) == []
  {
  }

  /** Decoding an encoded string gives the bytes back, whatever line breaks or other foreign
      symbols follow. */
  lemma {:induction false} EncodedDecodes(bytes: seq<byte>, rest: string)
    requires Digits(rest) == []
    ensures Flow(Digits(Encode(bytes) + rest), 0, 0) == bytes
    decreases |bytes|
  {
    hide Symbols, Split3, Decoded;
    if |bytes| == 0 {
      assert Encode(bytes) + rest == rest;
    } else if |bytes| == 1 {
      var vs := Split3(bytes[0], 0, 0)[..2];
      assert Encode(bytes) + rest == Symbols(vs) + ("=" + ("=" + rest));
      SymbolsAreDigits(vs, "=" + ("=" + rest));
      PaddingEnds("=" + rest);
      assert vs + [] == vs;
      FlowOne(bytes[0]);
      assert bytes == [bytes[0]];
    } else if |bytes| == 2 {
      var vs := Split3(bytes[0], bytes[1], 0)[..3];
      assert Encode(bytes) + rest == Symbols(vs) + ("=" + rest);
      SymbolsAreDigits(vs, "=" + rest);
      PaddingEnds(rest);
      assert vs + [] == vs;
      FlowTwo(bytes[0], bytes[1]);
      assert bytes == [bytes[0], bytes[1]];
    } else {
      var vs := Split3(bytes[0], bytes[1], bytes[2]);
      assert Encode(bytes) + rest == Symbols(vs) + (Encode(bytes[3..]) + rest);
      SymbolsAreDigits(vs, Encode(bytes[3..]) + rest);
      FlowGroup(bytes[0], bytes[1], bytes[2], Digits(Encode(bytes[3..]) + rest));
      EncodedDecodes(bytes[3..], rest);
      assert bytes == [bytes[0], bytes[1], bytes[2]] + bytes[3..];
    }
  }

  lemma FlowOne(a: byte)
    ensures Flow(Split3(a, 0, 0)[..2], 0, 0) == [a]
  {
    hide Flow;
    var vs := Split3(a, 0, 0);
    assert vs[..2] == [vs[0]] + ([vs[1]] + []);
    FlowNext(vs[0], [vs[1]] + [], 0, 0);
    FlowNext(vs[1], [], vs[0], 6);
    GroupBytes(a, 0, 0);
    FlowEnds(0, 4);
  }

  lemma FlowTwo(a: byte, b: byte)
    ensures Flow(Split3(a, b, 0)[..3], 0, 0) == [a, b]
  {
    hide Flow;
    var vs := Split3(a, b, 0);
    assert vs[..3] == [vs[0]] + ([vs[1]] + ([vs[2]] + []));
    FlowNext(vs[0], [vs[1]] + ([vs[2]] + []), 0, 0);
    FlowNext(vs[1], [vs[2]] + [], vs[0], 6);
    GroupBytes(a, b, 0);
    FlowNext(vs[2], [], b / 16, 4);
    FlowEnds(0, 2);
  }

  /** How much comes out: three bytes for four values, rounded down; so the decoder succeeds
      exactly on texts with at least two values before the first '='. */
  lemma {:induction false} FlowLength(vs: seq<sextet>, p: nat, bits: nat)
    requires Pending(p, bits)
    ensures |Flow(vs, p, bits)| == (bits + 6 * |vs|) / 8
    decreases |vs|
  {
    if vs != [] {
      var v := p * 64 + vs[0];
      if bits == 0 { FlowLength(vs[1..], v, 6); } else { FlowLength(vs[1..], v % Two(bits - 2), bits - 2); }
    }
  }

  lemma DecodesExactly(text: string)
    ensures Decode(text) != [] <==> |Digits(text)| >= 2
    ensures |Decode(text)| == |Digits(text)| * 3 / 4
  {
    FlowLength(Digits(text), 0, 0);
  }
}
