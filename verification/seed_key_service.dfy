/** The seed/key unlock as an object whose fields each call updates. */
module SeedKeyService {
  import opened Wrappers
  import opened SeedKey

  /** Compare without stopping at the first difference. */
  method SameKey(key: seq<bv8>, expected: seq<bv8>) returns (same: bool)
    ensures same <==> key == expected
  {
    same := |key| == |expected|;
    if same {
      var diff: bv8 := 0;
      var i := 0;
      while i < |key|
        invariant 0 <= i <= |key| == |expected|
        invariant diff == 0 <==> forall k :: 0 <= k < i ==> key[k] == expected[k]
      {
        OrXor(diff, key[i], expected[i]);
        diff := diff | (key[i] ^ expected[i]);
        i := i + 1;
      }
      same := diff == 0;
    }
  }

  lemma OrXor(d: bv8, a: bv8, b: bv8)
    ensures (d | (a ^ b)) == 0 <==> d == 0 && a == b
  {
  }

  class SeedKeyGuard {
    var seed: seq<bv8>
    var level: nat
    var generated: bool
    var consumed: bool
    var generatedAt: int
    var failed: nat
    var inLockout: bool
    var lockoutUntil: int
    ghost var serial: nat

    ghost function View(): Guard
      reads this
    {
      Guard(seed, level, generated, consumed, generatedAt, failed, inLockout, lockoutUntil, serial)
    }

    constructor ()
      ensures View() == FRESH
    {
      seed, level, generated, consumed, generatedAt := [], 0, false, false, 0;
      failed, inLockout, lockoutUntil, serial := 0, false, 0, 0;
    }

    method IsInLockout(now: int) returns (locked: bool)
      ensures locked == LockedAt(View(), now)
    {
      if !inLockout { return false; }
      locked := now < lockoutUntil;
    }

    method IsSeedValid(now: int) returns (valid: bool)
      ensures valid == SeedValidAt(View(), now)
    {
      if !generated || consumed { return false; }
      valid := now - generatedAt < SEED_VALIDITY;
    }

    method InvalidateSeed()
      modifies this`seed, this`consumed
      ensures View() == Invalidated(old(View()))
    {
      consumed := true;
      seed := seq(|seed|, _ => 0);
    }

    method IncrementFailedAttempts(now: int)
      modifies this`failed, this`inLockout, this`lockoutUntil
      ensures View() == Failed(old(View()), now)
    {
      failed := failed + 1;
      if failed >= MAX_FAILED_ATTEMPTS {
        inLockout := true;
        lockoutUntil := now + LOCKOUT;
        failed := 0;
      }
    }

    method GetSeed(lvl: nat, random: Option<seq<bv8>>, checkedAt: int, at: int)
      returns (rc: Code, out: seq<bv8>)
      modifies this
      ensures var (g, c) := SeedKey.GetSeed(old(View()), lvl, random, checkedAt, at); View() == g && rc == c
      ensures rc == Success <==>
        lvl % 2 == 1 && !(old(inLockout) && checkedAt < old(lockoutUntil)) && random.Some?
      ensures rc == Success ==> out == random.value
    {
      out := [];
      if lvl % 2 == 0 { return InvalidParameter, out; }
      var locked := IsInLockout(checkedAt);
      if locked { return Denied, out; }
      if random.None? { return SeedGenerationFailed, out; }
      out := random.value;
      seed, level, generated, consumed, generatedAt := out, lvl, true, false, at;
      serial := serial + 1;
      rc := Success;
    }

    method VerifyKey(lvl: nat, key: seq<bv8>, expected: Option<seq<bv8>>, t: Readings)
      returns (rc: Code, ghost cmp: Option<Comparison>)
      modifies this
      ensures (View(), rc, cmp) == SeedKey.VerifyKey(old(View()), lvl, key, expected, t)
      ensures rc == Success <==>
        old(Admitted(View(), lvl, t) && Live(View(), t)) && lvl == old(level) + 1 && expected == Some(key)
      ensures rc == Success ==> SeedGone(old(View()), View()) && failed == 0 && !inLockout
    {
      KeyAnsweredExactly(View(), lvl, key, expected, t);
      cmp := None;
      if lvl % 2 != 0 || lvl == 0 { return InvalidParameter, cmp; }
      var locked := IsInLockout(t.checkedAt);
      if locked { return Denied, cmp; }
      var valid := IsSeedValid(t.validAt);
      if !valid { return KeyVerificationFailed, cmp; }
      if lvl != level + 1 { return InvalidParameter, cmp; }
      if expected.None? { return KeyVerificationFailed, cmp; }
      var same := SameKey(key, expected.value);
      cmp := Some(Comparison(serial, t.comparedAt, same));
      if same {
        InvalidateSeed();
        failed, inLockout := 0, false;
        rc := Success;
      } else {
        IncrementFailedAttempts(t.failedAt);
        InvalidateSeed();
        rc := KeyVerificationFailed;
      }
    }
  }
}
