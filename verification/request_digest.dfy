/** The request digest: a header of segments and one row per item, sorted by purpose, rows
    mixing segments with bare eight-byte integers and bare varints. The bytes that are hashed
    determine the header and the set of rows, and do not depend on the order of the items. */
module RequestDigest {
  import opened Wrappers
  import opened CanonicalEncoding
  import opened KeyEncodings
  import opened SegmentReader

  datatype Row = Row(
    purpose: seq<byte>, keyId: seq<byte>, version: nat, algorithm: seq<byte>, suite: nat, format: nat,
    wrappedDigest: seq<byte>, parametersDigest: seq<byte>, envelopeDigest: seq<byte>, kcv: seq<byte>,
    recipientDigest: seq<byte>, rootVersion: nat, derivation: seq<byte>, operationId: seq<byte>)

  datatype Header = Header(requestId: seq<byte>, domain: seq<byte>, providerVersion: seq<byte>)

  const REQUEST_CONTEXT := "openiov|keyprov-req|v1"

  ghost predicate RowSized(r: Row) {
    && |r.purpose| < TWO32 && |r.keyId| < TWO32 && FitsU64(r.version) && |r.algorithm| < TWO32
    && FitsU64(r.suite) && FitsU64(r.format) && |r.wrappedDigest| < TWO32 && |r.parametersDigest| < TWO32
    && |r.envelopeDigest| < TWO32 && |r.kcv| < TWO32 && |r.recipientDigest| < TWO32 && FitsU64(r.rootVersion)
    && |r.derivation| < TWO32 && |r.operationId| < TWO32
  }

  ghost predicate RowsSized(rows: seq<Row>) { forall i :: 0 <= i < |rows| ==> RowSized(rows[i]) }

  ghost predicate HeaderSized(h: Header) {
    |h.requestId| < TWO32 && |h.domain| < TWO32 && |h.providerVersion| < TWO32
  }

  // ---- the bytes, each field followed by all that comes after it ----

  function KeyPart(r: Row, rest: seq<byte>): seq<byte> {
    LengthPrefixed(r.purpose) + (LengthPrefixed(r.keyId) + (U64(r.version) + (LengthPrefixed(r.algorithm)
      + (Varint(r.suite) + (Varint(r.format) + rest)))))
  }

  function DigestPart(r: Row, rest: seq<byte>): seq<byte> {
    LengthPrefixed(r.wrappedDigest) + (LengthPrefixed(r.parametersDigest) + (LengthPrefixed(r.envelopeDigest)
      + (LengthPrefixed(r.kcv) + (LengthPrefixed(r.recipientDigest) + rest))))
  }

  function RootPart(r: Row, rest: seq<byte>): seq<byte> {
    U64(r.rootVersion) + (LengthPrefixed(r.derivation) + (LengthPrefixed(r.operationId) + rest))
  }

  function RowThen(r: Row, rest: seq<byte>): seq<byte> {
    KeyPart(r, DigestPart(r, RootPart(r, rest)))
  }

  function RowsBytes(rows: seq<Row>): seq<byte> {
    if rows == [] then [] else RowThen(rows[0], RowsBytes(rows[1..]))
  }

  function HeaderThen(h: Header, rest: seq<byte>): seq<byte>
  {
    LengthPrefixed(Ascii(REQUEST_CONTEXT)) + (LengthPrefixed(h.requestId) + (LengthPrefixed(h.domain)
      + (LengthPrefixed(h.providerVersion) + rest)))
  }

  function Preimage(h: Header, sorted: seq<Row>): seq<byte> { HeaderThen(h, RowsBytes(sorted)) }

  // ---- what a receiver reads ----

  function ReadRow(s: seq<byte>): Read<Row> {
    var purpose :- ReadSegment(s);
    var keyId :- ReadSegment(purpose.rest);
    var version :- ReadInteger(keyId.rest);
    var algorithm :- ReadSegment(version.rest);
    var suite :- ReadVarint(algorithm.rest);
    var format :- ReadVarint(suite.rest);
    var wrappedDigest :- ReadSegment(format.rest);
    var parametersDigest :- ReadSegment(wrappedDigest.rest);
    var envelopeDigest :- ReadSegment(parametersDigest.rest);
    var kcv :- ReadSegment(envelopeDigest.rest);
    var recipientDigest :- ReadSegment(kcv.rest);
    var rootVersion :- ReadInteger(recipientDigest.rest);
    var derivation :- ReadSegment(rootVersion.rest);
    var operationId :- ReadSegment(derivation.rest);
    Got(Row(purpose.value, keyId.value, version.value, algorithm.value, suite.value, format.value,
            wrappedDigest.value, parametersDigest.value, envelopeDigest.value, kcv.value, recipientDigest.value,
            rootVersion.value, derivation.value, operationId.value), operationId.rest)
  }

  /** Rows up to the end; `fuel` bounds their number. */
  function ReadRows(s: seq<byte>, fuel: nat): Option<seq<Row>>
    decreases fuel
  {
    hide ReadRow;
    if s == [] then Some([])
    else if fuel == 0 then None
    else
      var first := ReadRow(s);
      if first.Bad? then None
      else
        var more := ReadRows(first.rest, fuel - 1);
        if more.None? then None else Some([first.value] + more.value)
  }

  function ReadRequest(s: seq<byte>): Option<(Header, seq<Row>)> {
    var context := ReadSegment(s);
    if context.Bad? || context.value != Ascii("openiov|keyprov-req|v1") then None
    else
      var header := ReadHeader(context.rest);
      if header.Bad? then None
      else
        var rows := ReadRows(header.rest, |header.rest|);
        if rows.None? then None else Some((header.value, rows.value))
  }

  function ReadHeader(s: seq<byte>): Read<Header> {
    var requestId :- ReadSegment(s);
    var domain :- ReadSegment(requestId.rest);
    var providerVersion :- ReadSegment(domain.rest);
    Got(Header(requestId.value, domain.value, providerVersion.value), providerVersion.rest)
  }

  lemma KeyPartRead(r: Row, rest: seq<byte>)
    requires RowSized(r)
    ensures var s := KeyPart(r, rest);
            var purpose := ReadSegment(s);
            purpose.Got? && purpose.value == r.purpose &&
            var keyId := ReadSegment(purpose.rest);
            keyId.Got? && keyId.value == r.keyId &&
            var version := ReadInteger(keyId.rest);
            version.Got? && version.value == r.version &&
            var algorithm := ReadSegment(version.rest);
            algorithm.Got? && algorithm.value == r.algorithm &&
            var suite := ReadVarint(algorithm.rest);
            suite.Got? && suite.value == r.suite && ReadVarint(suite.rest) == Got(r.format, rest)
  {
    hide LengthPrefixed, Varint, U64, ReadSegment, ReadInteger, ReadVarint;
    var t5 := Varint(r.format) + rest;
    var t4 := Varint(r.suite) + t5;
    var t3 := LengthPrefixed(r.algorithm) + t4;
    var t2 := U64(r.version) + t3;
    var t1 := LengthPrefixed(r.keyId) + t2;
    SegmentBack(r.purpose, t1);
    SegmentBack(r.keyId, t2);
    IntegerBack(r.version, t3);
    SegmentBack(r.algorithm, t4);
    VarintBack(r.suite, t5);
    VarintBack(r.format, rest);
  }

  lemma DigestPartRead(r: Row, rest: seq<byte>)
    requires RowSized(r)
    ensures var wrappedDigest := ReadSegment(DigestPart(r, rest));
            wrappedDigest.Got? && wrappedDigest.value == r.wrappedDigest &&
            var parametersDigest := ReadSegment(wrappedDigest.rest);
            parametersDigest.Got? && parametersDigest.value == r.parametersDigest &&
            var envelopeDigest := ReadSegment(parametersDigest.rest);
            envelopeDigest.Got? && envelopeDigest.value == r.envelopeDigest &&
            var kcv := ReadSegment(envelopeDigest.rest);
            kcv.Got? && kcv.value == r.kcv && ReadSegment(kcv.rest) == Got(r.recipientDigest, rest)
  {
    hide LengthPrefixed, ReadSegment;
    var t4 := LengthPrefixed(r.recipientDigest) + rest;
    var t3 := LengthPrefixed(r.kcv) + t4;
    var t2 := LengthPrefixed(r.envelopeDigest) + t3;
    var t1 := LengthPrefixed(r.parametersDigest) + t2;
    SegmentBack(r.wrappedDigest, t1);
    SegmentBack(r.parametersDigest, t2);
    SegmentBack(r.envelopeDigest, t3);
    SegmentBack(r.kcv, t4);
    SegmentBack(r.recipientDigest, rest);
  }

  lemma RootPartRead(r: Row, rest: seq<byte>)
    requires RowSized(r)
    ensures var rootVersion := ReadInteger(RootPart(r, rest));
            rootVersion.Got? && rootVersion.value == r.rootVersion &&
            var derivation := ReadSegment(rootVersion.rest);
            derivation.Got? && derivation.value == r.derivation
            && ReadSegment(derivation.rest) == Got(r.operationId, rest)
  {
    hide LengthPrefixed, U64, ReadSegment, ReadInteger;
    var t2 := LengthPrefixed(r.operationId) + rest;
    var t1 := LengthPrefixed(r.derivation) + t2;
    IntegerBack(r.rootVersion, t1);
    SegmentBack(r.derivation, t2);
    SegmentBack(r.operationId, rest);
  }

  /** A row is read back from its bytes, field by field in the order of the protocol. */
  lemma RowRead(r: Row, rest: seq<byte>)
    requires RowSized(r)
    ensures ReadRow(RowThen(r, rest)) == Got(r, rest)
  {
    hide KeyPart, DigestPart, RootPart, ReadSegment, ReadInteger, ReadVarint, RowSized;
    KeyPartRead(r, DigestPart(r, RootPart(r, rest)));
    DigestPartRead(r, RootPart(r, rest));
    RootPartRead(r, rest);
  }

  lemma {:induction false} RowsRead(rows: seq<Row>, fuel: nat)
    requires RowsSized(rows) && fuel >= |RowsBytes(rows)|
    ensures ReadRows(RowsBytes(rows), fuel) == Some(rows)
    decreases |rows|
  {
    hide RowThen, ReadRow, RowSized;
    if rows != [] {
      var rest := RowsBytes(rows[1..]);
      RowRead(rows[0], rest);
      RowLonger(rows[0], rest);
      RowsRead(rows[1..], fuel - 1);
      assert rows == [rows[0]] + rows[1..];
    }
  }

  lemma RowLonger(r: Row, rest: seq<byte>)
    ensures |RowThen(r, rest)| > |rest|
  {
    hide LengthPrefixed, Varint, U64;
    PrefixedLength(r.purpose);
  }

  /** Header and rows are read back from the bytes: the context, then request id, domain and
      provider version, then the rows in the order they are in, to the end. */
  lemma RequestRead(h: Header, rows: seq<Row>)
    requires HeaderSized(h) && RowsSized(rows)
    ensures ReadRequest(Preimage(h, rows)) == Some((h, rows))
  {
    hide LengthPrefixed, ReadSegment, ReadRows, RowsBytes, Ascii, RowsSized;
    var t3 := LengthPrefixed(h.providerVersion) + RowsBytes(rows);
    var t2 := LengthPrefixed(h.domain) + t3;
    var t1 := LengthPrefixed(h.requestId) + t2;
    assert |Ascii(REQUEST_CONTEXT)| == |REQUEST_CONTEXT| == 22;
    SegmentBack(Ascii(REQUEST_CONTEXT), t1);
    SegmentBack(h.requestId, t2);
    SegmentBack(h.domain, t3);
    SegmentBack(h.providerVersion, RowsBytes(rows));
    RowsRead(rows, |RowsBytes(rows)|);
  }

  // ---- reading back ----

  lemma KeyPartUnique(r: Row, s: Row, x: seq<byte>, y: seq<byte>)
    requires RowSized(r) && RowSized(s) && KeyPart(r, x) == KeyPart(s, y)
    ensures x == y && r.purpose == s.purpose && r.keyId == s.keyId && r.version == s.version
    ensures r.algorithm == s.algorithm && r.suite == s.suite && r.format == s.format
  {
    hide LengthPrefixed, Varint, U64;
    var r5, s5 := Varint(r.format) + x, Varint(s.format) + y;
    var r4, s4 := Varint(r.suite) + r5, Varint(s.suite) + s5;
    var r3, s3 := LengthPrefixed(r.algorithm) + r4, LengthPrefixed(s.algorithm) + s4;
    var r2, s2 := U64(r.version) + r3, U64(s.version) + s3;
    SegmentUnique(r.purpose, s.purpose, LengthPrefixed(r.keyId) + r2, LengthPrefixed(s.keyId) + s2);
    SegmentUnique(r.keyId, s.keyId, r2, s2);
    U64Unique(r.version, s.version, r3, s3);
    SegmentUnique(r.algorithm, s.algorithm, r4, s4);
    VarintUnique(r.suite, s.suite, r5, s5);
    VarintUnique(r.format, s.format, x, y);
  }

  lemma DigestPartUnique(r: Row, s: Row, x: seq<byte>, y: seq<byte>)
    requires RowSized(r) && RowSized(s) && DigestPart(r, x) == DigestPart(s, y)
    ensures x == y && r.wrappedDigest == s.wrappedDigest && r.parametersDigest == s.parametersDigest
    ensures r.envelopeDigest == s.envelopeDigest && r.kcv == s.kcv && r.recipientDigest == s.recipientDigest
  {
    hide LengthPrefixed;
    var r4, s4 := LengthPrefixed(r.recipientDigest) + x, LengthPrefixed(s.recipientDigest) + y;
    var r3, s3 := LengthPrefixed(r.kcv) + r4, LengthPrefixed(s.kcv) + s4;
    var r2, s2 := LengthPrefixed(r.envelopeDigest) + r3, LengthPrefixed(s.envelopeDigest) + s3;
    SegmentUnique(r.wrappedDigest, s.wrappedDigest, LengthPrefixed(r.parametersDigest) + r2,
                  LengthPrefixed(s.parametersDigest) + s2);
    SegmentUnique(r.parametersDigest, s.parametersDigest, r2, s2);
    SegmentUnique(r.envelopeDigest, s.envelopeDigest, r3, s3);
    SegmentUnique(r.kcv, s.kcv, r4, s4);
    SegmentUnique(r.recipientDigest, s.recipientDigest, x, y);
  }

  lemma RootPartUnique(r: Row, s: Row, x: seq<byte>, y: seq<byte>)
    requires RowSized(r) && RowSized(s) && RootPart(r, x) == RootPart(s, y)
    ensures x == y && r.rootVersion == s.rootVersion && r.derivation == s.derivation && r.operationId == s.operationId
  {
    hide LengthPrefixed, U64;
    var r2, s2 := LengthPrefixed(r.operationId) + x, LengthPrefixed(s.operationId) + y;
    U64Unique(r.rootVersion, s.rootVersion, LengthPrefixed(r.derivation) + r2, LengthPrefixed(s.derivation) + s2);
    SegmentUnique(r.derivation, s.derivation, r2, s2);
    SegmentUnique(r.operationId, s.operationId, x, y);
  }

  /** Streams that start with a row and agree hold the same row and agree after it. */
  lemma RowUnique(r: Row, s: Row, x: seq<byte>, y: seq<byte>)
    requires RowSized(r) && RowSized(s) && RowThen(r, x) == RowThen(s, y)
    ensures r == s && x == y
  {
    hide KeyPart, DigestPart, RootPart;
    KeyPartUnique(r, s, DigestPart(r, RootPart(r, x)), DigestPart(s, RootPart(s, y)));
    DigestPartUnique(r, s, RootPart(r, x), RootPart(s, y));
    RootPartUnique(r, s, x, y);
  }

  /** Any number of rows can be read back from their bytes in one way only. */
  lemma {:induction false} RowsUnique(a: seq<Row>, b: seq<Row>)
    requires RowsSized(a) && RowsSized(b) && RowsBytes(a) == RowsBytes(b)
    ensures a == b
    decreases |a|
  {
    hide RowThen, RowSized;
    if a != [] { RowNotEmpty(a[0], RowsBytes(a[1..])); }
    if b != [] { RowNotEmpty(b[0], RowsBytes(b[1..])); }
    if a != [] && b != [] {
      RowUnique(a[0], b[0], RowsBytes(a[1..]), RowsBytes(b[1..]));
      RowsUnique(a[1..], b[1..]);
      assert a == [a[0]] + a[1..] && b == [b[0]] + b[1..];
    }
  }

  lemma RowNotEmpty(r: Row, rest: seq<byte>)
    ensures RowThen(r, rest) != []
  {
    assert |LengthPrefixed(r.purpose)| >= 4;
    hide LengthPrefixed;
  }

  /** Header and rows can be read back from the hashed bytes. */
  lemma PreimageUnique(h: Header, k: Header, a: seq<Row>, b: seq<Row>)
    requires HeaderSized(h) && HeaderSized(k) && RowsSized(a) && RowsSized(b)
    requires Preimage(h, a) == Preimage(k, b)
    ensures h == k && a == b
  {
    hide LengthPrefixed, RowsBytes;
    var x, y := RowsBytes(a), RowsBytes(b);
    var h2, k2 := LengthPrefixed(h.providerVersion) + x, LengthPrefixed(k.providerVersion) + y;
    var h1, k1 := LengthPrefixed(h.domain) + h2, LengthPrefixed(k.domain) + k2;
    SegmentUnique(Ascii(REQUEST_CONTEXT), Ascii(REQUEST_CONTEXT), LengthPrefixed(h.requestId) + h1,
                  LengthPrefixed(k.requestId) + k1);
    SegmentUnique(h.requestId, k.requestId, h1, k1);
    SegmentUnique(h.domain, k.domain, h2, k2);
    SegmentUnique(h.providerVersion, k.providerVersion, x, y);
    RowsUnique(a, b);
  }

  // ---- sorting by purpose ----

  /** Strictly before, byte by byte, a prefix before what it starts. */
  predicate Before(a: seq<byte>, b: seq<byte>) {
    b != [] && (a == [] || a[0] < b[0] || (a[0] == b[0] && Before(a[1..], b[1..])))
  }

  /** The order of byte strings: at the first place they differ the smaller byte comes first, and
      a prefix before what it starts. */
  lemma {:induction false} BeforeExactly(a: seq<byte>, b: seq<byte>)
    ensures Before(a, b) <==> exists k :: DiffersAt(a, b, k) && (k == |a| || a[k] < b[k])
    decreases |a|
  {
    if a != [] && b != [] && a[0] == b[0] {
      BeforeExactly(a[1..], b[1..]);
      if Before(a, b) {
        var k :| DiffersAt(a[1..], b[1..], k) && (k == |a[1..]| || a[1..][k] < b[1..][k]);
        assert a[..k + 1] == [a[0]] + a[1..][..k] && b[..k + 1] == [b[0]] + b[1..][..k];
        assert DiffersAt(a, b, k + 1);
      }
      if exists k :: DiffersAt(a, b, k) && (k == |a| || a[k] < b[k]) {
        var k :| DiffersAt(a, b, k) && (k == |a| || a[k] < b[k]);
        assert k > 0 && a[1..][..k - 1] == a[..k][1..] && b[1..][..k - 1] == b[..k][1..];
        assert DiffersAt(a[1..], b[1..], k - 1);
      }
    } else if Before(a, b) {
      assert DiffersAt(a, b, 0);
    }
  }

  /** `b` goes on past place `k`, and up to there the two are the same. */
  ghost predicate DiffersAt(a: seq<byte>, b: seq<byte>, k: int) { 0 <= k <= |a| && k < |b| && a[..k] == b[..k] }

  lemma {:induction false} BeforeTotal(a: seq<byte>, b: seq<byte>)
    ensures Before(a, b) || Before(b, a) || a == b
    ensures !(Before(a, b) && Before(b, a))
    decreases |a| + |b|
  {
    if a != [] && b != [] {
      BeforeTotal(a[1..], b[1..]);
      if a[0] == b[0] && a[1..] == b[1..] { assert a == [a[0]] + a[1..] && b == [b[0]] + b[1..]; }
    }
  }

  lemma {:induction false} BeforeTransitive(a: seq<byte>, b: seq<byte>, c: seq<byte>)
    requires Before(a, b) && Before(b, c)
    ensures Before(a, c)
    decreases |a|
  {
    if a != [] && a[0] == b[0] && b[0] == c[0] { BeforeTransitive(a[1..], b[1..], c[1..]); }
  }

  ghost predicate SortedRows(rows: seq<Row>) {
    forall i, j :: 0 <= i < j < |rows| ==> !Before(rows[j].purpose, rows[i].purpose)
  }

  ghost predicate DistinctPurposes(rows: seq<Row>) {
    forall i, j :: 0 <= i < j < |rows| ==> rows[i].purpose != rows[j].purpose
  }

  /** Where `row` goes in a sorted list: behind everything not after it. */
  method Position(sorted: seq<Row>, row: Row) returns (k: nat)
    requires SortedRows(sorted)
    ensures k <= |sorted|
    ensures forall i :: 0 <= i < k ==> !Before(row.purpose, sorted[i].purpose)
    ensures forall i :: k <= i < |sorted| ==> Before(row.purpose, sorted[i].purpose)
  {
    k := 0;
    while k < |sorted| && !Before(row.purpose, sorted[k].purpose)
      invariant k <= |sorted|
      invariant forall i :: 0 <= i < k ==> !Before(row.purpose, sorted[i].purpose)
    {
      k := k + 1;
    }
    forall i | k < i < |sorted| ensures Before(row.purpose, sorted[i].purpose) {
      BeforeTotal(sorted[k].purpose, sorted[i].purpose);
      if sorted[k].purpose != sorted[i].purpose {
        BeforeTransitive(row.purpose, sorted[k].purpose, sorted[i].purpose);
      }
    }
  }

  method SortByPurpose(rows: seq<Row>) returns (sorted: seq<Row>)
    ensures SortedRows(sorted) && multiset(sorted) == multiset(rows)
  {
    sorted := [];
    var i := 0;
    while i < |rows|
      invariant 0 <= i <= |rows| && SortedRows(sorted) && multiset(sorted) == multiset(rows[..i])
    {
      var k := Position(sorted, rows[i]);
      InsertedSorted(sorted, rows[i], k);
      assert sorted == sorted[..k] + sorted[k..];
      sorted := sorted[..k] + [rows[i]] + sorted[k..];
      assert rows[..i + 1] == rows[..i] + [rows[i]];
      i := i + 1;
    }
    assert rows[..i] == rows;
  }

  lemma InsertedSorted(sorted: seq<Row>, row: Row, k: nat)
    requires SortedRows(sorted) && k <= |sorted|
    requires forall i :: 0 <= i < k ==> !Before(row.purpose, sorted[i].purpose)
    requires forall i :: k <= i < |sorted| ==> Before(row.purpose, sorted[i].purpose)
    ensures SortedRows(sorted[..k] + [row] + sorted[k..])
  {
    var t := sorted[..k] + [row] + sorted[k..];
    forall i, j | 0 <= i < j < |t| ensures !Before(t[j].purpose, t[i].purpose) {
      if i == k { BeforeTotal(t[i].purpose, t[j].purpose); }
    }
  }

  /** Rows with distinct purposes have only one sorted order. */
  lemma {:induction false} SortedOnce(a: seq<Row>, b: seq<Row>)
    requires SortedRows(a) && SortedRows(b) && DistinctPurposes(a) && multiset(a) == multiset(b)
    ensures a == b
    decreases |a|
  {
    hide Before;
    SameSize(a, b);
    if a != [] {
      FirstSame(a, b);
      WithoutFirst(a);
      WithoutFirst(b);
      SortedOnce(a[1..], b[1..]);
      assert a == [a[0]] + a[1..] && b == [b[0]] + b[1..];
    }
  }

  lemma FirstSame(a: seq<Row>, b: seq<Row>)
    requires SortedRows(a) && SortedRows(b) && DistinctPurposes(a) && multiset(a) == multiset(b) && a != [] && b != []
    ensures a[0] == b[0]
  {
    hide Before;
    assert a[0] in multiset(b) && b[0] in multiset(a);
    var i :| 0 <= i < |b| && b[i] == a[0];
    var j :| 0 <= j < |a| && a[j] == b[0];
    BeforeTotal(a[0].purpose, b[0].purpose);
  }

  lemma WithoutFirst(a: seq<Row>)
    requires a != []
    ensures multiset(a[1..]) == multiset(a) - multiset{a[0]}
  {
    assert a == [a[0]] + a[1..];
  }

  lemma SameSize(a: seq<Row>, b: seq<Row>)
    requires multiset(a) == multiset(b)
    ensures |a| == |b|
  {
    assert |multiset(a)| == |a| && |multiset(b)| == |b|;
  }

  lemma SameRowsSized(a: seq<Row>, b: seq<Row>)
    requires multiset(a) == multiset(b) && RowsSized(a)
    ensures RowsSized(b)
  {
    forall i | 0 <= i < |b| ensures RowSized(b[i]) {
      assert b[i] in multiset(b);
      assert b[i] in a;
    }
  }

  lemma PermutedDistinct(a: seq<Row>, b: seq<Row>)
    requires multiset(a) == multiset(b) && DistinctPurposes(a)
    ensures DistinctPurposes(b)
  {
    forall i, j | 0 <= i < j < |b| ensures b[i].purpose != b[j].purpose {
      if b[i].purpose == b[j].purpose {
        assert b[i] in multiset(a) && b[j] in multiset(a);
        var k :| 0 <= k < |a| && a[k] == b[i];
        var l :| 0 <= l < |a| && a[l] == b[j];
        assert k == l;
        Twice(b, i, j);
        Once(a, k);
      }
    }
  }

  lemma Twice(b: seq<Row>, i: nat, j: nat)
    requires i < j < |b| && b[i] == b[j]
    ensures multiset(b)[b[i]] >= 2
  {
    assert b == b[..j] + b[j..];
    assert b[i] in b[..j] && b[j] in b[j..];
    assert multiset(b[..j])[b[i]] >= 1 && multiset(b[j..])[b[i]] >= 1;
  }

  lemma Once(a: seq<Row>, k: nat)
    requires DistinctPurposes(a) && k < |a|
    ensures multiset(a)[a[k]] == 1
  {
    assert a == a[..k] + [a[k]] + a[k + 1..];
    assert a[k] !in a[..k] && a[k] !in a[k + 1..];
    assert multiset(a[..k])[a[k]] == 0 && multiset(a[k + 1..])[a[k]] == 0;
  }

  /** The hashed bytes stand for exactly the header and the collection of rows: they do not
      depend on the order the items came in, and nothing else gives the same bytes. */
  lemma DigestIdentifiesRequest(h: Header, k: Header, rows: seq<Row>, others: seq<Row>, a: seq<Row>, b: seq<Row>)
    requires HeaderSized(h) && HeaderSized(k) && RowsSized(rows) && RowsSized(others)
    requires DistinctPurposes(rows)
    requires SortedRows(a) && multiset(a) == multiset(rows)
    requires SortedRows(b) && multiset(b) == multiset(others)
    ensures Preimage(h, a) == Preimage(k, b) <==> h == k && multiset(rows) == multiset(others)
  {
    SameRowsSized(rows, a);
    SameRowsSized(others, b);
    if Preimage(h, a) == Preimage(k, b) {
      PreimageUnique(h, k, a, b);
    } else if h == k && multiset(rows) == multiset(others) {
      PermutedDistinct(rows, a);
      SortedOnce(a, b);
    }
  }

  // ---- building the bytes ----

  lemma Grow(done: seq<byte>, field: seq<byte>, rest: seq<byte>)
    ensures (done + field) + rest == done + (field + rest)
  {
  }

  method AppendKeyPart(out: ByteBuffer, r: Row, ghost rest: seq<byte>)
    requires RowSized(r)
    modifies out
    ensures out.bytes + rest == old(out.bytes) + KeyPart(r, rest)
  {
    hide LengthPrefixed, Varint, U64;
    ghost var t6 := Varint(r.format) + rest;
    ghost var t5 := Varint(r.suite) + t6;
    ghost var t4 := LengthPrefixed(r.algorithm) + t5;
    ghost var t3 := U64(r.version) + t4;
    ghost var t2 := LengthPrefixed(r.keyId) + t3;
    ghost var goal := out.bytes + KeyPart(r, rest);
    Grow(out.bytes, LengthPrefixed(r.purpose), t2);
    out.AppendLengthPrefixed(r.purpose);
    Grow(out.bytes, LengthPrefixed(r.keyId), t3);
    out.AppendLengthPrefixed(r.keyId);
    Grow(out.bytes, U64(r.version), t4);
    out.AppendUint64be(r.version);
    Grow(out.bytes, LengthPrefixed(r.algorithm), t5);
    out.AppendLengthPrefixed(r.algorithm);
    Grow(out.bytes, Varint(r.suite), t6);
    out.AppendEnumVarint(r.suite);
    Grow(out.bytes, Varint(r.format), rest);
    out.AppendEnumVarint(r.format);
    assert out.bytes + rest == goal;
  }

  method AppendDigestPart(out: ByteBuffer, r: Row, ghost rest: seq<byte>)
    requires RowSized(r)
    modifies out
    ensures out.bytes + rest == old(out.bytes) + DigestPart(r, rest)
  {
    hide LengthPrefixed;
    ghost var t5 := LengthPrefixed(r.recipientDigest) + rest;
    ghost var t4 := LengthPrefixed(r.kcv) + t5;
    ghost var t3 := LengthPrefixed(r.envelopeDigest) + t4;
    ghost var t2 := LengthPrefixed(r.parametersDigest) + t3;
    ghost var goal := out.bytes + DigestPart(r, rest);
    Grow(out.bytes, LengthPrefixed(r.wrappedDigest), t2);
    out.AppendLengthPrefixed(r.wrappedDigest);
    Grow(out.bytes, LengthPrefixed(r.parametersDigest), t3);
    out.AppendLengthPrefixed(r.parametersDigest);
    Grow(out.bytes, LengthPrefixed(r.envelopeDigest), t4);
    out.AppendLengthPrefixed(r.envelopeDigest);
    Grow(out.bytes, LengthPrefixed(r.kcv), t5);
    out.AppendLengthPrefixed(r.kcv);
    Grow(out.bytes, LengthPrefixed(r.recipientDigest), rest);
    out.AppendLengthPrefixed(r.recipientDigest);
    assert out.bytes + rest == goal;
  }

  method AppendRootPart(out: ByteBuffer, r: Row, ghost rest: seq<byte>)
    requires RowSized(r)
    modifies out
    ensures out.bytes + rest == old(out.bytes) + RootPart(r, rest)
  {
    hide LengthPrefixed, U64;
    ghost var t3 := LengthPrefixed(r.operationId) + rest;
    ghost var t2 := LengthPrefixed(r.derivation) + t3;
    ghost var goal := out.bytes + RootPart(r, rest);
    Grow(out.bytes, U64(r.rootVersion), t2);
    out.AppendUint64be(r.rootVersion);
    Grow(out.bytes, LengthPrefixed(r.derivation), t3);
    out.AppendLengthPrefixed(r.derivation);
    Grow(out.bytes, LengthPrefixed(r.operationId), rest);
    out.AppendLengthPrefixed(r.operationId);
    assert out.bytes + rest == goal;
  }

  lemma AnySortedOrder(h: Header, rows: seq<Row>, sorted: seq<Row>)
    requires DistinctPurposes(rows) && SortedRows(sorted) && multiset(sorted) == multiset(rows)
    ensures forall s :: SortedRows(s) && multiset(s) == multiset(rows) ==> Preimage(h, sorted) == Preimage(h, s)
  {
    hide Preimage;
    PermutedDistinct(rows, sorted);
    forall s | SortedRows(s) && multiset(s) == multiset(rows) ensures Preimage(h, sorted) == Preimage(h, s) {
      SortedOnce(sorted, s);
    }
  }

  /** Sort the rows, then append header and rows to an empty buffer. With distinct purposes the
      bytes are those of any sorted order of the rows. */
  method BuildRequestDigestInput(h: Header, rows: seq<Row>) returns (bytes: seq<byte>, ghost sorted: seq<Row>)
    requires HeaderSized(h) && RowsSized(rows)
    ensures SortedRows(sorted) && multiset(sorted) == multiset(rows) && bytes == Preimage(h, sorted)
    ensures DistinctPurposes(rows) ==>
      forall s :: SortedRows(s) && multiset(s) == multiset(rows) ==> bytes == Preimage(h, s)
    ensures ReadRequest(bytes).Some? && ReadRequest(bytes).value.0 == h
    ensures SortedRows(ReadRequest(bytes).value.1) && multiset(ReadRequest(bytes).value.1) == multiset(rows)
  {
    hide LengthPrefixed, KeyPart, DigestPart, RootPart;
    var inOrder := SortByPurpose(rows);
    sorted := inOrder;
    SameRowsSized(rows, inOrder);
    var buf := new ByteBuffer();
    AppendHeader(buf, h, RowsBytes(inOrder));
    var i := 0;
    while i < |inOrder|
      invariant 0 <= i <= |inOrder|
      invariant buf.bytes + RowsBytes(inOrder[i..]) == Preimage(h, inOrder)
    {
      var r := inOrder[i];
      ghost var rest := RowsBytes(inOrder[i + 1..]);
      assert inOrder[i..][0] == r && inOrder[i..][1..] == inOrder[i + 1..];
      assert RowsBytes(inOrder[i..]) == RowThen(r, rest);
      AppendKeyPart(buf, r, DigestPart(r, RootPart(r, rest)));
      AppendDigestPart(buf, r, RootPart(r, rest));
      AppendRootPart(buf, r, rest);
      i := i + 1;
    }
    assert RowsBytes(inOrder[i..]) == [];
    bytes := buf.bytes;
    assert bytes + [] == bytes;
    if DistinctPurposes(rows) { AnySortedOrder(h, rows, inOrder); }
    RequestRead(h, inOrder);
  }

  method AppendHeader(out: ByteBuffer, h: Header, ghost rest: seq<byte>)
    requires HeaderSized(h) && out.bytes == []
    modifies out
    ensures out.bytes + rest == HeaderThen(h, rest)
  {
    hide LengthPrefixed;
    ghost var t4 := LengthPrefixed(h.providerVersion) + rest;
    ghost var t3 := LengthPrefixed(h.domain) + t4;
    ghost var t2 := LengthPrefixed(h.requestId) + t3;
    Grow(out.bytes, LengthPrefixed(Ascii(REQUEST_CONTEXT)), t2);
    out.AppendLengthPrefixed(Ascii(REQUEST_CONTEXT));
    Grow(out.bytes, LengthPrefixed(h.requestId), t3);
    out.AppendLengthPrefixed(h.requestId);
    Grow(out.bytes, LengthPrefixed(h.domain), t4);
    out.AppendLengthPrefixed(h.domain);
    Grow(out.bytes, LengthPrefixed(h.providerVersion), rest);
    out.AppendLengthPrefixed(h.providerVersion);
    assert out.bytes + rest == HeaderThen(h, rest);
  }
}
