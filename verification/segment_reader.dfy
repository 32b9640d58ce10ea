/** A receiver for the canonical framing, written from the wire format alone: length-prefixed
    segments, eight-byte integers and varints read off the front of a byte string. */
module SegmentReader {
  import opened Wrappers
  import opened CanonicalEncoding

  /** What was read, and what is left; or nothing could be read. */
  datatype Read<T> = Bad | Got(value: T, rest: seq<byte>) {
    predicate IsFailure() { Bad? }

    function PropagateFailure<U>(): Read<U>
      requires Bad?
    {
      Bad
    }

    function Extract(): Read<T>
      requires Got?
    {
      this
    }
  }

  function FourBytes(s: seq<byte>): nat
    requires |s| >= 4
  {
    s[0] as int * 16_777_216 + s[1] as int * 65_536 + s[2] as int * 256 + s[3] as int
  }

  /** A length in four bytes, highest first, and that many bytes. */
  function ReadSegment(s: seq<byte>): Read<seq<byte>> {
    if |s| < 4 || |s| < 4 + FourBytes(s) then Bad
    else Got(s[4..4 + FourBytes(s)], s[4 + FourBytes(s)..])
  }

  /** Eight bytes, highest first. */
  function ReadInteger(s: seq<byte>): Read<nat> {
    if |s| < 8 then Bad else Got(FourBytes(s) * 4_294_967_296 + FourBytes(s[4..]), s[8..])
  }

  /** Seven bits a byte, lowest first, up to the first byte below 128. */
  function ReadVarint(s: seq<byte>): Read<nat> {
    if s == [] then Bad
    else if s[0] < 128 then Got(s[0] as int, s[1..])
    else
      var more :- ReadVarint(s[1..]);
      Got(s[0] as int - 128 + 128 * more.value, more.rest)
  }

  /** All segments up to the end, if the bytes are nothing but segments. */
  function ReadAll(s: seq<byte>): Option<seq<seq<byte>>>
    decreases |s|
  {
    if s == [] then Some([])
    else
      var first := ReadSegment(s);
      if first.Bad? then None
      else
        var more := ReadAll(first.rest);
        if more.None? then None else Some([first.value] + more.value)
  }

  /** A segment that is a varint, or an eight-byte integer, and nothing else. */
  function VarintIn(segment: seq<byte>): Option<nat> {
    var r := ReadVarint(segment);
    if r.Got? && r.rest == [] then Some(r.value) else None
  }

  function IntegerIn(segment: seq<byte>): Option<nat> {
    var r := ReadInteger(segment);
    if r.Got? && r.rest == [] then Some(r.value) else None
  }

  // ---- the receiver undoes the framing ----

  lemma FourBytesBack(v: nat, rest: seq<byte>)
    requires v < TWO32
    ensures |U32(v) + rest| >= 4 && FourBytes(U32(v) + rest) == v
  {
    CanonicalEncoding.FourBytes(v);
    var s := U32(v);
    assert (U32(v) + rest)[..4] == s;
    Recomposed(v);
  }

  lemma Recomposed(v: nat)
    requires v < TWO32
    ensures v / 0x100_0000 % 256 * 16_777_216 + v / 0x1_0000 % 256 * 65_536 + v / 0x100 % 256 * 256 + v % 256 == v
  {
    assert v / 0x1_0000 == v / 0x100 / 256;
    assert v / 0x100_0000 == v / 0x1_0000 / 256;
  }

  lemma SegmentBack(content: seq<byte>, rest: seq<byte>)
    requires |content| < TWO32
    ensures ReadSegment(LengthPrefixed(content) + rest) == Got(content, rest)
  {
    hide FourBytes, BigEndian;
    var s := LengthPrefixed(content) + rest;
    assert s == U32(|content|) + (content + rest);
    FourBytesBack(|content|, content + rest);
    assert s[4..4 + |content|] == content && s[4 + |content|..] == rest;
  }

  lemma IntegerBack(v: nat, rest: seq<byte>)
    requires v < TWO64
    ensures ReadInteger(U64(v) + rest) == Got(v, rest)
  {
    hide FourBytes, BigEndian;
    var high, low := v / TWO32, v % TWO32;
    TwoHalves(v);
    var s := U64(v) + rest;
    assert s == U32(high) + (U32(low) + rest);
    assert s[4..] == U32(low) + rest && s[8..] == rest;
    FourBytesBack(high, U32(low) + rest);
    FourBytesBack(low, rest);
  }

  lemma TwoHalves(v: nat)
    requires v < TWO64
    ensures v / TWO32 < TWO32 && U64(v) == U32(v / TWO32) + U32(v % TWO32)
  {
    LowHalf(v, v / TWO32, v % TWO32, 4);
  }

  lemma LowByte(v: nat, high: nat, low: nat, p: nat)
    requires v == high * (256 * p) + low
    ensures v / 256 == high * p + low / 256 && v % 256 == low % 256
  {
    var a := high * p;
    assert high * (256 * p) == 256 * a;
    QuotientIs(v, 256, a + low / 256, low % 256);
  }

  lemma LowSmaller(low: nat, p: nat)
    requires low < 256 * p
    ensures low / 256 < p
  {
  }

  lemma {:induction false} LowHalf(v: nat, high: nat, low: nat, n: nat)
    requires v == high * Pow256(n) + low && low < Pow256(n)
    ensures BigEndian(v, n + 4) == BigEndian(high, 4) + BigEndian(low, n)
  {
    if n == 0 {
      assert BigEndian(low, 0) == [] && v == high;
    } else {
      var p := Pow256(n - 1);
      LowByte(v, high, low, p);
      LowSmaller(low, p);
      LowHalf(v / 256, high, low / 256, n - 1);
      assert BigEndian(v, n + 4) == BigEndian(v / 256, n + 3) + [v % 256];
      assert BigEndian(low, n) == BigEndian(low / 256, n - 1) + [low % 256];
    }
  }

  lemma {:induction false} VarintBack(v: nat, rest: seq<byte>)
    ensures ReadVarint(Varint(v) + rest) == Got(v, rest)
  {
    var s := Varint(v) + rest;
    assert s[0] == Varint(v)[0] && s[1..] == Varint(v)[1..] + rest;
    if v < 128 {
      assert s[1..] == rest;
    } else {
      VarintBack(v / 128, rest);
    }
  }

  lemma {:induction false} SegmentsBack(contents: seq<seq<byte>>)
    requires Short(contents)
    ensures ReadAll(Segments(contents)) == Some(contents)
    decreases |contents|
  {
    hide ReadSegment, LengthPrefixed;
    if contents != [] {
      SegmentBack(contents[0], Segments(contents[1..]));
      SegmentsBack(contents[1..]);
      PrefixedLength(contents[0]);
      assert contents == [contents[0]] + contents[1..];
    }
  }

  lemma VarintInBack(v: nat)
    ensures VarintIn(Varint(v)) == Some(v)
  {
    VarintBack(v, []);
    assert Varint(v) + [] == Varint(v);
  }

  lemma IntegerInBack(v: nat)
    requires v < TWO64
    ensures IntegerIn(U64(v)) == Some(v)
  {
    hide BigEndian, ReadInteger;
    IntegerBack(v, []);
    assert U64(v) + [] == U64(v);
  }
}
