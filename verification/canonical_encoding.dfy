/** The canonical framing: fixed-width big-endian integers, varints and length-prefixed
    segments appended to a byte buffer, and why what is appended can be read back in only
    one way. */
module CanonicalEncoding {
  import opened Wrappers

  const TWO32 := 0x1_0000_0000
  const TWO64 := 0x1_0000_0000_0000_0000

  // ---- what is appended ----

  /** The `n` low bytes of `v`, highest first. */
  function BigEndian(v: nat, n: nat): (r: seq<byte>)
    ensures |r| == n
  {
    if n == 0 then [] else BigEndian(v / 256, n - 1) + [v % 256]
  }

  function U32(v: nat): seq<byte> { BigEndian(v, 4) }

  function U64(v: nat): seq<byte> { BigEndian(v, 8) }

  /** Seven bits at a time, lowest first; the high bit says that more follow. */
  function Varint(v: nat): (r: seq<byte>)
    ensures |r| >= 1
  {
    if v < 128 then [v] else [v % 128 + 128] + Varint(v / 128)
  }

  /** The length is cut to 32 bits, as the cast in the source does. */
  function LengthPrefixed(content: seq<byte>): seq<byte> { U32(|content| % TWO32) + content }

  function Segments(contents: seq<seq<byte>>): seq<byte> {
    if contents == [] then [] else LengthPrefixed(contents[0]) + Segments(contents[1..])
  }

  // ---- the buffer ----

  class ByteBuffer {
    var bytes: seq<byte>

    constructor ()
      ensures bytes == []
    {
      bytes := [];
    }

    method PushBack(b: byte)
      modifies this
      ensures bytes == old(bytes) + [b]
    {
      bytes := bytes + [b];
    }

    method AppendUint32be(v: nat)
      requires v < TWO32
      modifies this
      ensures bytes == old(bytes) + U32(v)
    {
      PushBack(v / 0x100_0000 % 256);
      PushBack(v / 0x1_0000 % 256);
      PushBack(v / 0x100 % 256);
      PushBack(v % 256);
      FourBytes(v);
    }

    method AppendUint64be(v: nat)
      requires v < TWO64
      modifies this
      ensures bytes == old(bytes) + U64(v)
    {
      hide BigEndian, Shifted;
      WholeAndNothing(v);
      var i := 7;
      while i >= 0
        invariant -1 <= i <= 7
        invariant bytes == old(bytes) + BigEndian(Shifted(v, i + 1), 7 - i)
      {
        PushBack(Shifted(v, i) % 256);
        ShiftOnce(v, i, 7 - i);
        i := i - 1;
      }
    }

    method AppendEnumVarint(v: nat)
      requires v < TWO64
      modifies this
      ensures bytes == old(bytes) + Varint(v)
    {
      var rest := v;
      while true
        invariant bytes + Varint(rest) == old(bytes) + Varint(v)
        decreases rest
      {
        var b := rest % 128;
        ghost var before := rest;
        rest := rest / 128;
        if rest != 0 {
          assert Varint(before) == [b + 128] + Varint(rest);
          PushBack(b + 128);
        } else {
          PushBack(b);
          break;
        }
      }
    }

    method AppendLengthPrefixed(content: seq<byte>)
      modifies this
      ensures bytes == old(bytes) + LengthPrefixed(content)
    {
      AppendUint32be(|content| % TWO32);
      bytes := bytes + content;
    }

    method AppendEnumSegment(v: nat)
      requires v < TWO64
      modifies this
      ensures bytes == old(bytes) + LengthPrefixed(Varint(v))
    {
      var seg := new ByteBuffer();
      seg.AppendEnumVarint(v);
      AppendLengthPrefixed(seg.bytes);
    }

    method AppendUint64beSegment(v: nat)
      requires v < TWO64
      modifies this
      ensures bytes == old(bytes) + LengthPrefixed(U64(v))
    {
      var value := new ByteBuffer();
      value.AppendUint64be(v);
      AppendLengthPrefixed(value.bytes);
    }
  }

  function Pow256(n: nat): (p: nat)
    ensures p > 0
  {
    if n == 0 then 1 else 256 * Pow256(n - 1)
  }

  lemma FourBytes(v: nat)
    requires v < TWO32
    ensures U32(v) == [v / 0x100_0000 % 256, v / 0x1_0000 % 256, v / 0x100 % 256, v % 256]
  {
    assert BigEndian(v, 4) == BigEndian(v / 256, 3) + [v % 256];
    assert BigEndian(v / 256, 3) == BigEndian(v / 256 / 256, 2) + [v / 256 % 256];
    assert BigEndian(v / 256 / 256, 2) == BigEndian(v / 256 / 256 / 256, 1) + [v / 256 / 256 % 256];
    assert BigEndian(v / 256 / 256 / 256, 1) == BigEndian(v / 256 / 256 / 256 / 256, 0) + [v / 256 / 256 / 256 % 256];
  }

  lemma QuotientIs(v: nat, d: nat, q: nat, r: nat)
    requires d > 0 && v == d * q + r && r < d
    ensures v / d == q
  {
    var k := q - v / d;
    assert v == d * (v / d) + v % d;
    assert d * k == d * q - d * (v / d);
    MultipleIsFar(d, k);
  }

  lemma MultipleIsFar(d: nat, k: int)
    ensures k >= 1 ==> d * k >= d
    ensures k <= -1 ==> d * k + d <= 0
  {
  }

  /** `v` shifted right by `i` bytes. */
  function Shifted(v: nat, i: nat): nat { if i == 0 then v else Shifted(v, i - 1) / 256 }

  lemma WholeAndNothing(v: nat)
    ensures BigEndian(Shifted(v, 8), 0) == [] && Shifted(v, 0) == v
  {
  }

  lemma ShiftOnce(v: nat, i: nat, n: nat)
    ensures BigEndian(Shifted(v, i), n + 1) == BigEndian(Shifted(v, i + 1), n) + [Shifted(v, i) % 256]
  {
    assert Shifted(v, i + 1) == Shifted(v, i) / 256;
  }

  // ---- reading back ----

  function Value(s: seq<byte>): nat {
    if s == [] then 0 else Value(s[..|s| - 1]) * 256 + s[|s| - 1]
  }

  /** A fixed-width integer carries its value modulo the width. */
  lemma {:induction false} BigEndianValue(v: nat, n: nat)
    ensures v < Pow256(n) ==> Value(BigEndian(v, n)) == v
    decreases n
  {
    if n > 0 {
      BigEndianValue(v / 256, n - 1);
      assert BigEndian(v, n)[..n - 1] == BigEndian(v / 256, n - 1);
      if v < Pow256(n) { assert v / 256 < Pow256(n - 1); }
    }
  }

  lemma Widths()
    ensures Pow256(4) == TWO32 && Pow256(8) == TWO64
  {
    assert Pow256(2) == 0x1_0000;
    assert Pow256(4) == TWO32;
    assert Pow256(6) == 0x1_0000_0000_0000;
  }

  lemma SplitSame(a: seq<byte>, b: seq<byte>, x: seq<byte>, y: seq<byte>)
    requires |a| == |b| && a + x == b + y
    ensures a == b && x == y
  {
    assert a == (a + x)[..|a|] && b == (b + y)[..|b|];
    assert x == (a + x)[|a|..] && y == (b + y)[|b|..];
  }

  /** Two streams that start with an eight-byte integer and agree hold the same integer. */
  lemma U64Unique(a: nat, b: nat, x: seq<byte>, y: seq<byte>)
    requires a < TWO64 && b < TWO64 && U64(a) + x == U64(b) + y
    ensures a == b && x == y
  {
    SplitSame(U64(a), U64(b), x, y);
    Widths();
    BigEndianValue(a, 8);
    BigEndianValue(b, 8);
  }

  /** The same for varints, which carry their own end. */
  lemma {:induction false} VarintUnique(a: nat, b: nat, x: seq<byte>, y: seq<byte>)
    requires Varint(a) + x == Varint(b) + y
    ensures a == b && x == y
    decreases a
  {
    assert (Varint(a) + x)[0] == Varint(a)[0] && (Varint(b) + y)[0] == Varint(b)[0];
    assert (Varint(a) + x)[1..] == Varint(a)[1..] + x && (Varint(b) + y)[1..] == Varint(b)[1..] + y;
    if a >= 128 && b >= 128 {
      VarintUnique(a / 128, b / 128, x, y);
    } else if a < 128 && b < 128 {
      assert Varint(a)[1..] + x == x && Varint(b)[1..] + y == y;
    }
  }

  /** The same for segments shorter than four gibibytes. */
  lemma SegmentUnique(s: seq<byte>, t: seq<byte>, x: seq<byte>, y: seq<byte>)
    requires |s| < TWO32 && |t| < TWO32 && LengthPrefixed(s) + x == LengthPrefixed(t) + y
    ensures s == t && x == y
  {
    hide BigEndian, Value, Pow256;
    assert U32(|s|) + (s + x) == LengthPrefixed(s) + x && U32(|t|) + (t + y) == LengthPrefixed(t) + y;
    SplitSame(U32(|s|), U32(|t|), s + x, t + y);
    Widths();
    BigEndianValue(|s|, 4);
    BigEndianValue(|t|, 4);
    SplitSame(s, t, x, y);
  }

  ghost predicate Short(contents: seq<seq<byte>>) {
    forall i :: 0 <= i < |contents| ==> |contents[i]| < TWO32
  }

  /** A list of segments, of any length, is told by its bytes. */
  lemma {:induction false} SegmentsUnique(a: seq<seq<byte>>, b: seq<seq<byte>>)
    requires Short(a) && Short(b) && Segments(a) == Segments(b)
    ensures a == b
    decreases |a|
  {
    if a == [] || b == [] {
      assert a != [] ==> |Segments(a)| >= 4;
      assert b != [] ==> |Segments(b)| >= 4;
    } else {
      SegmentUnique(a[0], b[0], Segments(a[1..]), Segments(b[1..]));
      SegmentsUnique(a[1..], b[1..]);
      assert a == [a[0]] + a[1..] && b == [b[0]] + b[1..];
    }
  }

  /** Four gibibytes are the limit: there the cut length makes two lists collide. */
  lemma SegmentsCollideAtTheLimit(z: seq<byte>)
    requires |z| == TWO32 - 4
    ensures Segments([LengthPrefixed(z)]) == Segments([[], z]) && [LengthPrefixed(z)] != [[], z]
  {
    var s := LengthPrefixed(z);
    assert |s| == TWO32 && |s| % TWO32 == 0;
    assert Segments([s]) == LengthPrefixed(s) + Segments([]);
    assert Segments([s]) == U32(0) + s;
    assert [[], z][1..] == [z] && [z][1..] == [];
    assert Segments([z]) == LengthPrefixed(z) + Segments([]) == s;
    assert LengthPrefixed([]) == U32(0);
    assert Segments([[], z]) == U32(0) + s;
  }

  ghost predicate UpTo(contents: seq<seq<byte>>, n: nat) {
    forall i :: 0 <= i < |contents| ==> |contents[i]| <= n
  }

  /** Lists of segments of at most `n` bytes are told by their bytes if and only if `n` is below
      four gibibytes. */
  lemma SegmentsUniqueExactly(n: nat)
    ensures (forall a, b :: UpTo(a, n) && UpTo(b, n) && Segments(a) == Segments(b) ==> a == b) <==> n < TWO32
  {
    hide Segments, LengthPrefixed;
    if n < TWO32 {
      forall a, b | UpTo(a, n) && UpTo(b, n) && Segments(a) == Segments(b) ensures a == b {
        SegmentsUnique(a, b);
      }
    } else {
      var z: seq<byte> := seq(TWO32 - 4, _ => 0);
      SegmentsCollideAtTheLimit(z);
      PrefixedLength(z);
      var a, b := [LengthPrefixed(z)], [[], z];
      assert UpTo(a, n) && UpTo(b, n);
    }
  }

  lemma PrefixedLength(s: seq<byte>)
    ensures |LengthPrefixed(s)| == |s| + 4
  {
  }

  lemma {:induction false} SegmentsConcat(a: seq<seq<byte>>, b: seq<seq<byte>>)
    ensures Segments(a + b) == Segments(a) + Segments(b)
    decreases |a|
  {
    if a == [] {
      assert a + b == b;
    } else {
      assert (a + b)[1..] == a[1..] + b && (a + b)[0] == a[0];
      SegmentsConcat(a[1..], b);
      assert LengthPrefixed(a[0]) + (Segments(a[1..]) + Segments(b)) == Segments(a) + Segments(b);
    }
  }

  // ---- hexadecimal ----

  function HexDigit(d: nat): char
    requires d < 16
  {
    "0123456789abcdef"[d]
  }

  function Nibble(c: char): int {
    if '0' <= c <= '9' then c as int - '0' as int
    else if 'a' <= c <= 'f' then c as int - 'a' as int + 10
    else if 'A' <= c <= 'F' then c as int - 'A' as int + 10
    else -1
  }

  function Hex(bytes: seq<byte>): (r: string)
    ensures |r| == 2 * |bytes|
  {
    seq(2 * |bytes|, i requires 0 <= i < 2 * |bytes| =>
      HexDigit(if i % 2 == 0 then bytes[i / 2] / 16 else bytes[i / 2] % 16))
  }

  predicate IsHex(s: string) { |s| % 2 == 0 && forall i :: 0 <= i < |s| ==> Nibble(s[i]) >= 0 }

  function Unhex(s: string): (r: seq<byte>)
    requires IsHex(s)
    ensures |r| == |s| / 2
  {
    seq(|s| / 2, i requires 0 <= i < |s| / 2 => Nibble(s[2 * i]) * 16 + Nibble(s[2 * i + 1]))
  }

  method ToHex(bytes: seq<byte>) returns (r: string)
    ensures r == Hex(bytes)
  {
    r := "";
    var i := 0;
    while i < |bytes|
      invariant 0 <= i <= |bytes| && r == Hex(bytes)[..2 * i]
    {
      r := r + [HexDigit(bytes[i] / 16)];
      r := r + [HexDigit(bytes[i] % 16)];
      i := i + 1;
    }
  }

  /** Accepts exactly strings of an even number of hexadecimal digits of either case. */
  method HexToBytes(s: string) returns (ok: bool, r: seq<byte>)
    ensures ok <==> IsHex(s)
    ensures ok ==> r == Unhex(s)
  {
    r := [];
    if |s| % 2 != 0 { return false, r; }
    var i := 0;
    while i < |s|
      invariant 0 <= i <= |s| && i % 2 == 0
      invariant forall k :: 0 <= k < i ==> Nibble(s[k]) >= 0
      invariant |r| == i / 2 && forall k :: 0 <= k < |r| ==> r[k] == Nibble(s[2 * k]) * 16 + Nibble(s[2 * k + 1])
    {
      var hi, lo := Nibble(s[i]), Nibble(s[i + 1]);
      if hi < 0 || lo < 0 { return false, r; }
      r := r + [hi * 16 + lo];
      i := i + 2;
    }
    ok := true;
  }

  lemma HexRoundTrip(bytes: seq<byte>)
    ensures IsHex(Hex(bytes)) && Unhex(Hex(bytes)) == bytes
  {
    var s := Hex(bytes);
    forall i | 0 <= i < |s| ensures Nibble(s[i]) == if i % 2 == 0 then bytes[i / 2] / 16 else bytes[i / 2] % 16 {
      NibbleOfDigit(if i % 2 == 0 then bytes[i / 2] / 16 else bytes[i / 2] % 16);
    }
    forall i | 0 <= i < |bytes| ensures Unhex(s)[i] == bytes[i] {
      assert Nibble(s[2 * i]) == bytes[i] / 16 && Nibble(s[2 * i + 1]) == bytes[i] % 16;
    }
  }

  lemma NibbleOfDigit(d: nat)
    requires d < 16
    ensures Nibble(HexDigit(d)) == d
  {
  }

  /** The digits stand for the bytes in order, the high half first. */
  lemma HexStands(bytes: seq<byte>, i: nat)
    requires i < |bytes|
    ensures Hex(bytes)[2 * i] == "0123456789abcdef"[bytes[i] / 16]
    ensures Hex(bytes)[2 * i + 1] == "0123456789abcdef"[bytes[i] % 16]
  {
  }

  /** Accepted digits are these, of either case, with their places as values. */
  lemma NibbleExactly(c: char)
    ensures Nibble(c) >= 0 <==> c in "0123456789abcdef" || c in "0123456789ABCDEF"
    ensures Nibble(c) >= 0 ==>
              Nibble(c) < 16 && (c == "0123456789abcdef"[Nibble(c)] || c == "0123456789ABCDEF"[Nibble(c)])
  {
  }

  /** Two digits are read as one byte, the high half first. */
  lemma UnhexStands(s: string, i: nat)
    requires IsHex(s) && 2 * i + 1 < |s|
    ensures 0 <= Nibble(s[2 * i]) < 16 && 0 <= Nibble(s[2 * i + 1]) < 16
    ensures Unhex(s)[i] == 16 * Nibble(s[2 * i]) + Nibble(s[2 * i + 1])
  {
    NibbleExactly(s[2 * i]);
    NibbleExactly(s[2 * i + 1]);
    hide Nibble;
  }

  function LowerHex(c: char): char { if 'A' <= c <= 'F' then c - 'A' + 'a' else c }

  /** Reading and writing again gives the same digits in lower case. */
  lemma HexOfUnhex(s: string)
    requires IsHex(s)
    ensures Hex(Unhex(s)) == seq(|s|, i requires 0 <= i < |s| => LowerHex(s[i]))
  {
    forall i | 0 <= i < |s| ensures Hex(Unhex(s))[i] == LowerHex(s[i]) {
      HexOfUnhexAt(s, i);
    }
  }

  lemma HexOfUnhexAt(s: string, i: nat)
    requires IsHex(s) && |s| % 2 == 0 && i < |s|
    ensures Hex(Unhex(s))[i] == LowerHex(s[i])
  {
    hide IsHex, Nibble, HexDigit, LowerHex, Hex, Unhex;
    var k := i / 2;
    UnhexAt(s, k);
    DigitOfNibble(s[2 * k]);
    DigitOfNibble(s[2 * k + 1]);
    HexAt(Unhex(s), i);
    PairOf(Nibble(s[2 * k]), Nibble(s[2 * k + 1]));
  }

  lemma PairOf(hi: nat, lo: nat)
    requires hi < 16 && lo < 16
    ensures (hi * 16 + lo) / 16 == hi && (hi * 16 + lo) % 16 == lo
  {
  }

  lemma UnhexAt(s: string, k: nat)
    requires IsHex(s) && k < |s| / 2
    ensures Unhex(s)[k] == Nibble(s[2 * k]) * 16 + Nibble(s[2 * k + 1])
    ensures Nibble(s[2 * k]) >= 0 && Nibble(s[2 * k + 1]) >= 0
  {
  }

  lemma HexAt(b: seq<byte>, i: nat)
    requires i < 2 * |b|
    ensures Hex(b)[i] == HexDigit(if i % 2 == 0 then b[i / 2] / 16 else b[i / 2] % 16)
  {
  }

  lemma DigitOfNibble(c: char)
    requires Nibble(c) >= 0
    ensures Nibble(c) < 16 && HexDigit(Nibble(c)) == LowerHex(c)
  {
  }
}
