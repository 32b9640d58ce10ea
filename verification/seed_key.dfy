/** The seed/key unlock with its lockout. Clock readings are arguments, in nanoseconds; a call
    reads the clock several times. */
module SeedKey {
  import opened Wrappers

  const SECOND := 1_000_000_000
  const MAX_FAILED_ATTEMPTS := 3
  const LOCKOUT := 10 * SECOND
  const SEED_VALIDITY := 30 * SECOND

  datatype Code = Success | InvalidParameter | Denied | SeedGenerationFailed | KeyVerificationFailed

  /** `serial` is history: how many seeds have been issued. */
  datatype Guard = Guard(
    seed: seq<bv8>, level: nat, generated: bool, consumed: bool, generatedAt: int,
    failed: nat, inLockout: bool, lockoutUntil: int, serial: nat)

  const FRESH := Guard([], 0, false, false, 0, 0, false, 0, 0)

  /** One key comparison: which seed it used up, when, and how it ended. */
  datatype Comparison = Comparison(serial: nat, at: int, matched: bool)

  predicate LockedAt(g: Guard, now: int) { g.inLockout && now < g.lockoutUntil }

  predicate SeedValidAt(g: Guard, now: int) {
    g.generated && !g.consumed && now - g.generatedAt < SEED_VALIDITY
  }

  /** `random` is what the random source gave, `checkedAt` and `at` the clock readings. */
  function GetSeed(g: Guard, level: nat, random: Option<seq<bv8>>, checkedAt: int, at: int): (r: (Guard, Code)) {
    if level % 2 == 0 then (g, InvalidParameter)
    else if LockedAt(g, checkedAt) then (g, Denied)
    else if random.None? then (g, SeedGenerationFailed)
    else
      (g.(seed := random.value, level := level, generated := true, consumed := false, generatedAt := at,
          serial := g.serial + 1), Success)
  }

  function Invalidated(g: Guard): Guard {
    g.(consumed := true, seed := seq(|g.seed|, _ => 0))
  }

  function Failed(g: Guard, at: int): Guard {
    if g.failed + 1 >= MAX_FAILED_ATTEMPTS
    then g.(failed := 0, inLockout := true, lockoutUntil := at + LOCKOUT)
    else g.(failed := g.failed + 1)
  }

  /** The clock readings of one verification, in order. */
  datatype Readings = Readings(checkedAt: int, validAt: int, comparedAt: int, failedAt: int)

  /** `expected` is the key the device derives from the seed, when that works. */
  function VerifyKey(g: Guard, level: nat, key: seq<bv8>, expected: Option<seq<bv8>>, t: Readings)
    : (r: (Guard, Code, Option<Comparison>))
  {
    if level % 2 != 0 || level == 0 then (g, InvalidParameter, None)
    else if LockedAt(g, t.checkedAt) then (g, Denied, None)
    else if !SeedValidAt(g, t.validAt) then (g, KeyVerificationFailed, None)
    else if level != g.level + 1 then (g, InvalidParameter, None)
    else if expected.None? then (g, KeyVerificationFailed, None)
    else if key == expected.value then
      (Invalidated(g).(failed := 0, inLockout := false), Success, Some(Comparison(g.serial, t.comparedAt, true)))
    else
      (Invalidated(Failed(g, t.failedAt)), KeyVerificationFailed, Some(Comparison(g.serial, t.comparedAt, false)))
  }

  // ---- what a call answers ----

  /** The key level is one more than an odd seed level, and nothing is locked. */
  ghost predicate Admitted(g: Guard, level: nat, t: Readings) {
    level % 2 == 0 && level != 0 && !(g.inLockout && t.checkedAt < g.lockoutUntil)
  }

  /** A seed is there that no comparison has used and that is under thirty seconds old. */
  ghost predicate Live(g: Guard, t: Readings) {
    g.generated && !g.consumed && t.validAt < g.generatedAt + 30_000_000_000
  }

  /** The seed is gone: used up, and its bytes are zero. */
  ghost predicate SeedGone(before: Guard, after: Guard) {
    && after.consumed && |after.seed| == |before.seed| && (forall i :: 0 <= i < |after.seed| ==> after.seed[i] == 0)
    && after.level == before.level && after.generated == before.generated
    && after.generatedAt == before.generatedAt && after.serial == before.serial
  }

  /** The answer to a key, and what it leaves. A key is accepted if and only if it is the one
      expected for a live seed of the level below, outside a lockout; acceptance clears the
      failures. A wrong key counts, the third one in a row starts ten seconds of lockout. Both
      use the seed up; everything else leaves the state alone. */
  lemma KeyAnsweredExactly(g: Guard, level: nat, key: seq<bv8>, expected: Option<seq<bv8>>, t: Readings)
    ensures var (g1, rc, cmp) := VerifyKey(g, level, key, expected, t);
            && (rc == Success <==>
                  Admitted(g, level, t) && Live(g, t) && level == g.level + 1 && expected == Some(key))
            && (rc == Denied <==>
                  level % 2 == 0 && level != 0 && g.inLockout && t.checkedAt < g.lockoutUntil)
            && (rc == InvalidParameter <==>
                  level % 2 == 1 || level == 0 || (Admitted(g, level, t) && Live(g, t) && level != g.level + 1))
            && (rc == KeyVerificationFailed <==>
                  Admitted(g, level, t) && (!Live(g, t) || (level == g.level + 1 && expected != Some(key))))
            && (cmp.Some? <==> Admitted(g, level, t) && Live(g, t) && level == g.level + 1 && expected.Some?)
            && (cmp.Some? ==> cmp.value == Comparison(g.serial, t.comparedAt, rc == Success) && SeedGone(g, g1))
            && (cmp.None? ==> g1 == g)
            && (rc == Success ==> g1.failed == 0 && !g1.inLockout)
            && (cmp.Some? && rc != Success && g.failed < 2 ==>
                  g1.failed == g.failed + 1 && g1.inLockout == g.inLockout && g1.lockoutUntil == g.lockoutUntil)
            && (cmp.Some? && rc != Success && g.failed >= 2 ==>
                  g1.failed == 0 && g1.inLockout && g1.lockoutUntil == t.failedAt + 10_000_000_000)
  {
  }

  /** The answer to a seed request: a seed is issued if and only if the level is odd, nothing is
      locked and the random source works; failures and lockout stay as they are. */
  lemma SeedAnsweredExactly(g: Guard, level: nat, random: Option<seq<bv8>>, checkedAt: int, at: int)
    ensures var (g1, rc) := GetSeed(g, level, random, checkedAt, at);
            var locked := g.inLockout && checkedAt < g.lockoutUntil;
            && (rc == Success <==> level % 2 == 1 && !locked && random.Some?)
            && (rc == InvalidParameter <==> level % 2 == 0)
            && (rc == Denied <==> level % 2 == 1 && locked)
            && (rc == SeedGenerationFailed <==> level % 2 == 1 && !locked && random.None?)
            && (rc != Success ==> g1 == g)
            && (rc == Success ==>
                  g1.seed == random.value && g1.level == level && g1.generated && !g1.consumed && g1.generatedAt == at
                  && g1.failed == g.failed && g1.inLockout == g.inLockout && g1.lockoutUntil == g.lockoutUntil
                  && g1.serial == g.serial + 1)
  {
  }

  // ---- runs ----

  datatype Call =
    | Seed(level: nat, random: Option<seq<bv8>>, checkedAt: int, at: int)
    | Key(level: nat, key: seq<bv8>, expected: Option<seq<bv8>>, t: Readings)

  function Apply(g: Guard, c: Call): (r: (Guard, Option<Comparison>)) {
    match c
    case Seed(level, random, checkedAt, at) => (GetSeed(g, level, random, checkedAt, at).0, None)
    case Key(level, key, expected, t) => var (g1, _, cmp) := VerifyKey(g, level, key, expected, t); (g1, cmp)
  }

  function Begin(c: Call): int { if c.Seed? then c.checkedAt else c.t.checkedAt }

  function End(c: Call): int { if c.Seed? then c.at else c.t.failedAt }

  ghost predicate Ordered(c: Call) {
    if c.Seed? then c.checkedAt <= c.at
    else c.t.checkedAt <= c.t.validAt <= c.t.comparedAt <= c.t.failedAt
  }

  /** One call after the other on a clock that does not go back. */
  ghost predicate Monotone(calls: seq<Call>, from: int)
    decreases |calls|
  {
    calls == [] || (from <= Begin(calls[0]) && Ordered(calls[0]) && Monotone(calls[1..], End(calls[0])))
  }

  /** The key comparisons of a run, in order. */
  function Comparisons(g: Guard, calls: seq<Call>): seq<Comparison>
    decreases |calls|
  {
    if calls == [] then []
    else
      var (g1, cmp) := Apply(g, calls[0]);
      (if cmp.Some? then [cmp.value] else []) + Comparisons(g1, calls[1..])
  }

  /** What each call of a run answered, and the comparison it made, if any. */
  function Answers(g: Guard, calls: seq<Call>): (r: seq<(Code, Option<Comparison>)>)
    ensures |r| == |calls|
    decreases |calls|
  {
    if calls == [] then []
    else
      var first := match calls[0]
        case Seed(level, random, checkedAt, at) => (GetSeed(g, level, random, checkedAt, at).1, None)
        case Key(level, key, expected, t) => var (_, rc, cmp) := VerifyKey(g, level, key, expected, t); (rc, cmp);
      [first] + Answers(Apply(g, calls[0]).0, calls[1..])
  }

  function Made(answers: seq<(Code, Option<Comparison>)>): seq<Comparison> {
    if answers == [] then []
    else (if answers[0].1.Some? then [answers[0].1.value] else []) + Made(answers[1..])
  }

  /** Over every run the comparisons are those of its key calls, in order, and a key call answers
      SUCCESS exactly when its own comparison is in the log as matched. */
  lemma {:induction false} SuccessExactlyWhenMatched(g: Guard, calls: seq<Call>)
    ensures Made(Answers(g, calls)) == Comparisons(g, calls)
    ensures forall i :: 0 <= i < |calls| && calls[i].Key? ==>
              (Answers(g, calls)[i].0 == Success <==>
                 Answers(g, calls)[i].1.Some? && Answers(g, calls)[i].1.value.matched)
    decreases |calls|
  {
    if calls != [] {
      var g1 := Apply(g, calls[0]).0;
      SuccessExactlyWhenMatched(g1, calls[1..]);
      if calls[0].Key? {
        KeyAnsweredExactly(g, calls[0].level, calls[0].key, calls[0].expected, calls[0].t);
      }
      hide VerifyKey, GetSeed;
      assert Answers(g, calls)[1..] == Answers(g1, calls[1..]);
    }
  }

  ghost predicate NoMatch(log: seq<Comparison>) { forall i :: 0 <= i < |log| ==> !log[i].matched }

  ghost predicate Sound(g: Guard) { g.failed < MAX_FAILED_ATTEMPTS && (g.generated ==> g.serial >= 1) }

  /** The earliest instant at which the next comparison can happen. */
  function Earliest(g: Guard, now: int): int {
    if g.inLockout && now < g.lockoutUntil then g.lockoutUntil else now
  }

  /** A call keeps the failure count below the limit. A failed comparison comes after any
      lockout and either raises the count or starts the next lockout. */
  lemma CallCounts(g: Guard, c: Call, from: int)
    requires Sound(g) && from <= Begin(c) && Ordered(c)
    ensures var (g1, cmp) := Apply(g, c);
            && Sound(g1)
            && (cmp.None? ==> g1.failed == g.failed && Earliest(g1, End(c)) >= Earliest(g, from))
            && (cmp.Some? ==> cmp.value.at >= Earliest(g, from))
            && (cmp.Some? && !cmp.value.matched ==>
                  (if g.failed == 2 then g1.failed == 0 && Earliest(g1, End(c)) >= cmp.value.at + LOCKOUT
                   else g1.failed == g.failed + 1 && Earliest(g1, End(c)) >= cmp.value.at))
  {
  }

  lemma Thirds(j: nat, f: nat)
    requires j >= 1
    ensures f == 2 ==> (j + f) / 3 == (j - 1) / 3 + 1
    ensures (j + f) / 3 == (j - 1 + (f + 1)) / 3
  {
  }

  /** From a state with `failed` counted failures, failed comparison number `j` (from zero)
      waits for every lockout started in between. */
  lemma {:induction false} FailureNotBefore(g: Guard, calls: seq<Call>, from: int, j: nat)
    requires Sound(g) && Monotone(calls, from) && NoMatch(Comparisons(g, calls)) && j < |Comparisons(g, calls)|
    ensures Comparisons(g, calls)[j].at >= Earliest(g, from) + (j + g.failed) / 3 * LOCKOUT
    decreases |calls|
  {
    var (g1, cmp) := Apply(g, calls[0]);
    CallCounts(g, calls[0], from);
    hide Apply, Earliest, Ordered;
    RestUnmatched(g, calls);
    if cmp.None? {
      FailureNotBefore(g1, calls[1..], End(calls[0]), j);
    } else if j > 0 {
      FailureNotBefore(g1, calls[1..], End(calls[0]), j - 1);
      Thirds(j, g.failed);
    }
  }

  lemma RestUnmatched(g: Guard, calls: seq<Call>)
    requires calls != [] && NoMatch(Comparisons(g, calls))
    ensures var (g1, cmp) := Apply(g, calls[0]);
            && NoMatch(Comparisons(g1, calls[1..])) && (cmp.Some? ==> !cmp.value.matched)
            && Comparisons(g, calls) == (if cmp.Some? then [cmp.value] else []) + Comparisons(g1, calls[1..])
  {
    hide Apply;
    var (g1, cmp) := Apply(g, calls[0]);
    var rest := Comparisons(g1, calls[1..]);
    if cmp.Some? {
      TailUnmatched(cmp.value, rest);
    } else {
      assert Comparisons(g, calls) == [] + rest == rest;
    }
  }

  lemma TailUnmatched(c: Comparison, rest: seq<Comparison>)
    requires NoMatch([c] + rest)
    ensures !c.matched && NoMatch(rest)
  {
    var log := [c] + rest;
    assert log[0] == c;
    forall i | 0 <= i < |rest| ensures !rest[i].matched {
      assert log[i + 1] == rest[i];
    }
  }

  /** Three failures cost a lockout: in a run without a match, comparison `j` comes at least
      ten seconds per three comparisons after comparison `i`. */
  lemma {:induction false} FailuresSpread(g: Guard, calls: seq<Call>, from: int, i: nat, j: nat)
    requires Sound(g) && Monotone(calls, from) && NoMatch(Comparisons(g, calls))
    requires i <= j < |Comparisons(g, calls)|
    ensures Comparisons(g, calls)[j].at - Comparisons(g, calls)[i].at >= (j - i) / 3 * LOCKOUT
    decreases |calls|
  {
    var (g1, cmp) := Apply(g, calls[0]);
    CallCounts(g, calls[0], from);
    hide Apply, Earliest, Ordered;
    RestUnmatched(g, calls);
    if cmp.None? {
      FailuresSpread(g1, calls[1..], End(calls[0]), i, j);
    } else if i > 0 {
      FailuresSpread(g1, calls[1..], End(calls[0]), i - 1, j - 1);
    } else if j > 0 {
      FailureNotBefore(g1, calls[1..], End(calls[0]), j - 1);
    }
  }

  /** The rate bound: in a run without a match, any interval of `d` nanoseconds holds at most
      three failed comparisons per started ten seconds. */
  lemma RateBound(g: Guard, calls: seq<Call>, from: int, i: nat, j: nat, d: nat)
    requires Sound(g) && Monotone(calls, from) && NoMatch(Comparisons(g, calls))
    requires i <= j < |Comparisons(g, calls)|
    requires Comparisons(g, calls)[j].at - Comparisons(g, calls)[i].at <= d
    ensures j - i + 1 <= 3 * (d / LOCKOUT + 1)
  {
    FailuresSpread(g, calls, from, i, j);
    hide Comparisons, Monotone, NoMatch, Sound;
    PerLockout(j - i, d);
  }

  lemma PerLockout(n: nat, d: nat)
    requires n / 3 * LOCKOUT <= d
    ensures n + 1 <= 3 * (d / LOCKOUT + 1)
  {
    var k := n / 3;
    assert k <= d / LOCKOUT;
  }

  /** One seed and one wrong key, all at instant zero. */
  function Try(wrong: seq<bv8>, right: seq<bv8>): seq<Call> {
    [Seed(1, Some([]), 0, 0), Key(2, wrong, Some(right), Readings(0, 0, 0, 0))]
  }

  lemma OneTry(g: Guard, wrong: seq<bv8>, right: seq<bv8>, more: seq<Call>)
    requires wrong != right && !g.inLockout && g.failed < 3
    ensures var t := Try(wrong, right);
            var g1 := Apply(Apply(g, t[0]).0, t[1]).0;
            && Comparisons(g, t + more) == [Comparison(g.serial + 1, 0, false)] + Comparisons(g1, more)
            && g1.serial == g.serial + 1 && (g.failed < 2 ==> !g1.inLockout && g1.failed == g.failed + 1)
    ensures Monotone(more, 0) ==> Monotone(Try(wrong, right) + more, 0)
  {
    var t := Try(wrong, right);
    var g0 := Apply(g, t[0]).0;
    assert (t + more)[0] == t[0] && (t + more)[1..] == [t[1]] + more;
    assert ([t[1]] + more)[0] == t[1] && ([t[1]] + more)[1..] == more;
    assert Comparisons(g, t + more) == [] + Comparisons(g0, [t[1]] + more);
    assert Apply(g0, t[1]).1 == Some(Comparison(g.serial + 1, 0, false));
  }

  /** The bound is met: three failed comparisons at one instant are possible. */
  lemma BoundIsMet(wrong: seq<bv8>, right: seq<bv8>)
    requires wrong != right
    ensures var t := Try(wrong, right);
            var calls := t + (t + (t + []));
            && Monotone(calls, 0)
            && Comparisons(FRESH, calls)
               == [Comparison(1, 0, false)] + ([Comparison(2, 0, false)] + ([Comparison(3, 0, false)] + []))
  {
    var t := Try(wrong, right);
    var g1 := Apply(Apply(FRESH, t[0]).0, t[1]).0;
    var g2 := Apply(Apply(g1, t[0]).0, t[1]).0;
    var g3 := Apply(Apply(g2, t[0]).0, t[1]).0;
    OneTry(FRESH, wrong, right, t + (t + []));
    OneTry(g1, wrong, right, t + []);
    OneTry(g2, wrong, right, []);
    assert Comparisons(g3, []) == [];
    hide Apply;
  }

  // ---- one seed, one comparison ----

  /** The seed a state could still be compared with. */
  function NextSerial(g: Guard): nat { if g.generated && !g.consumed then g.serial else g.serial + 1 }

  lemma CallUsesSeed(g: Guard, c: Call)
    ensures var (g1, cmp) := Apply(g, c);
            && NextSerial(g1) >= NextSerial(g) && g1.serial >= g.serial
            && (cmp.Some? ==> cmp.value.serial == NextSerial(g) == g.serial && NextSerial(g1) == g.serial + 1)
  {
  }

  lemma {:induction false} SerialsFrom(g: Guard, calls: seq<Call>, j: nat)
    requires j < |Comparisons(g, calls)|
    ensures Comparisons(g, calls)[j].serial >= NextSerial(g)
    decreases |calls|
  {
    var (g1, cmp) := Apply(g, calls[0]);
    CallUsesSeed(g, calls[0]);
    hide Apply, NextSerial;
    if cmp.None? {
      SerialsFrom(g1, calls[1..], j);
    } else if j > 0 {
      SerialsFrom(g1, calls[1..], j - 1);
    }
  }

  /** In every run, matches or not, each comparison uses up a seed of its own, issued after
      the one the comparison before it used. */
  lemma {:induction false} EachComparisonItsOwnSeed(g: Guard, calls: seq<Call>, i: nat, j: nat)
    requires i < j < |Comparisons(g, calls)|
    ensures Comparisons(g, calls)[i].serial < Comparisons(g, calls)[j].serial
    decreases |calls|
  {
    var (g1, cmp) := Apply(g, calls[0]);
    CallUsesSeed(g, calls[0]);
    hide Apply, NextSerial;
    if cmp.None? {
      EachComparisonItsOwnSeed(g1, calls[1..], i, j);
    } else if i > 0 {
      EachComparisonItsOwnSeed(g1, calls[1..], i - 1, j - 1);
    } else {
      SerialsFrom(g1, calls[1..], j - 1);
    }
  }
}
