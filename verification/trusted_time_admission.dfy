/** From the gate's integers to true time, and from there to the KL1 admission deadline. */
module TrustedTimeAdmission {
  import opened Wrappers
  import opened TrustedTime
  import opened TrustedTimeTheorems
  import P = Provisioning
  import S = ProviderState
  import Theorems = ProvisioningTheorems

  /** The promise of a TIME snapshot at the instant the gate reads the clock: the reply took
      `transit` of the round trip, the synchronised estimate has aged since, and true UTC
      differs from it by at most the error at synchronisation plus the drift since. */
  ghost predicate BoundsHold(f: Snapshot, now: int, transit: real, trueUtc: real) {
    var age := f.freshnessAgeMs as real + transit + Elapsed(f, now) as real;
    var estimate := f.utcEpochMs as real + age;
    var bound := f.uncertaintyMs as real + f.driftPpm as real * age / 1000000.0;
    && 0.0 <= transit <= f.rttMs as real
    && estimate - bound <= trueUtc <= estimate + bound
  }

  lemma TruncBelow(a: int)
    requires a >= 0
    ensures a as real / 1000000.0 < TruncDiv(a, 1_000_000) as real + 1.0
  {
    var q := a / 1_000_000;
    assert a < (q + 1) * 1_000_000;
    assert a as real < (q + 1) as real * 1000000.0;
  }

  lemma DriftWithin(drift: int, age: int, transitAge: real)
    requires drift >= 0 && age >= 0 && 0.0 <= transitAge <= age as real
    ensures drift as real * transitAge / 1000000.0 < TruncDiv(drift * age, 1_000_000) as real + 1.0
  {
    TruncBelow(drift * age);
    assert drift as real * transitAge <= drift as real * age as real;
    assert (drift * age) as real == drift as real * age as real;
  }

  /** A platform grant encloses true UTC, one millisecond being lost to the truncating
      division and the whole round trip to not knowing the transit. */
  lemma GrantEnclosesTrueTime(f: Snapshot, cfg: Config, now: int, lkg: Option<int>, transit: real, trueUtc: real)
    requires GatePlatform(f, cfg, now, lkg).sample.trust == Trusted && BoundsHold(f, now, transit, trueUtc)
    ensures var s := GatePlatform(f, cfg, now, lkg).sample;
            var utcMs := s.utcNs / NS_PER_MS;
            && s.utcNs == utcMs * NS_PER_MS
            && trueUtc < (utcMs + s.uncertaintyMs + 1) as real
            && trueUtc > (utcMs - s.uncertaintyMs - f.rttMs - 1) as real
  {
    GateGrantsExactly(f, cfg, now, lkg);
    BoundsEnclose(f, now, transit, trueUtc);
    hide GatePlatform, ContractComplete, AuthBound, BoundsHold, AgeAt, UtcAt, UncertaintyAt;
  }

  lemma BoundsEnclose(f: Snapshot, now: int, transit: real, trueUtc: real)
    requires ContractComplete(f) && BoundsHold(f, now, transit, trueUtc)
    ensures trueUtc < (UtcAt(f, now) + UncertaintyAt(f, now) + 1) as real
    ensures trueUtc > (UtcAt(f, now) - UncertaintyAt(f, now) - f.rttMs - 1) as real
  {
    hide Contains, TruncDiv;
    assert f.driftPpm > 0 && f.freshnessAgeMs >= 0 && f.rttMs >= 0;
    var age := f.freshnessAgeMs as real + transit + Elapsed(f, now) as real;
    DriftWithin(f.driftPpm, AgeAt(f, now), age);
    var estimate := f.utcEpochMs as real + age;
    var bound := f.uncertaintyMs as real + f.driftPpm as real * age / 1000000.0;
    assert (UtcAt(f, now) - f.rttMs) as real <= estimate <= UtcAt(f, now) as real;
    assert bound < (UncertaintyAt(f, now) + 1) as real;
    Enclose(UtcAt(f, now), UncertaintyAt(f, now), f.rttMs, estimate, bound, trueUtc);
  }

  lemma Enclose(utc: int, u: int, rtt: int, estimate: real, bound: real, t: real)
    requires (utc - rtt) as real <= estimate <= utc as real && bound < (u + 1) as real
    requires estimate - bound <= t <= estimate + bound
    ensures t < (utc + u + 1) as real && t > (utc - u - rtt - 1) as real
  {
    assert (utc + u + 1) as real == utc as real + (u + 1) as real;
    assert (utc - u - rtt - 1) as real == (utc - rtt) as real - (u + 1) as real;
  }

  /** How the provisioning service reads a sample: whole milliseconds, toward zero. */
  function AsAdmissionSample(s: Sample): P.Sample {
    P.Sample(s.trust == Trusted, TruncDiv(s.utcNs, NS_PER_MS), s.uncertaintyMs, s.freshnessMs)
  }

  lemma WholeMsExact(ms: int)
    ensures TruncDiv(ms * NS_PER_MS, NS_PER_MS) == ms
  {
  }

  /** A KL1 import that starts anything for a request the journal did not know does so, in
      true time, strictly before its deadline, whenever its last lease check read a platform
      grant whose bounds hold; neither the truncated drift term nor the unknown transit can
      push it past. */
  lemma Kl1StartsBeforeTrueDeadline(
    s: S.State, req: P.Request, ctx: P.Kl1Context, env: P.Env,
    f: Snapshot, cfg: Config, now: int, lkg: Option<int>, transit: real, trueUtc: real)
    requires P.Shaped(req, env) && P.RidOf(req.requestId) !in s.mem.journal
    requires P.ImportKl1(s, req, ctx, env).0 != s
    requires env.lastCheck == AsAdmissionSample(GatePlatform(f, cfg, now, lkg).sample)
    requires BoundsHold(f, now, transit, trueUtc)
    ensures trueUtc < ctx.expireAt as real
  {
    hide P.ImportKl1, P.Shaped, GatePlatform, BoundsHold;
    Theorems.Kl1StartsBeforeDeadline(s, req, ctx, env);
    var grant := GatePlatform(f, cfg, now, lkg).sample;
    assert grant.trust == Trusted;
    GrantEnclosesTrueTime(f, cfg, now, lkg, transit, trueUtc);
    WholeMsExact(grant.utcNs / NS_PER_MS);
    assert grant.utcNs / NS_PER_MS + grant.uncertaintyMs + 1 <= ctx.expireAt;
  }

  // ---- the reported interval itself ----

  ghost predicate AboveReport(f: Snapshot, now: int, trueUtc: real) {
    trueUtc > (UtcAt(f, now) + UncertaintyAt(f, now)) as real
  }

  ghost predicate BelowReport(f: Snapshot, now: int, trueUtc: real) {
    trueUtc < (UtcAt(f, now) - UncertaintyAt(f, now)) as real
  }

  /** The drift since synchronisation, in millionths of a millisecond. */
  function Drifted(f: Snapshot, now: int): int { f.driftPpm * AgeAt(f, now) }

  function Times(a: real, b: real): real { a * b }

  /** What a spare part of the round trip takes off the lower and the upper end: itself, less
      or more the drift over it. */
  function LowerSlack(f: Snapshot, spare: real): real { Times(spare, 1.0 - f.driftPpm as real / 1000000.0) }

  function UpperSlack(f: Snapshot, spare: real): real { Times(spare, 1.0 + f.driftPpm as real / 1000000.0) }

  /** What the snapshot's bounds admit at a given transit: from `Lowest` to `Highest`. */
  function Lowest(f: Snapshot, now: int, transit: real): real {
    (UtcAt(f, now) - f.uncertaintyMs) as real - Drifted(f, now) as real / 1000000.0
      - LowerSlack(f, f.rttMs as real - transit)
  }

  function Highest(f: Snapshot, now: int, transit: real): real {
    (UtcAt(f, now) + f.uncertaintyMs) as real + Drifted(f, now) as real / 1000000.0
      - UpperSlack(f, f.rttMs as real - transit)
  }

  lemma DriftSplits(drift: real, age: real, spare: real)
    ensures drift * (age - spare) / 1000000.0 == drift * age / 1000000.0 - spare * (drift / 1000000.0)
  {
  }

  lemma BoundsAre(f: Snapshot, now: int, transit: real, trueUtc: real)
    ensures BoundsHold(f, now, transit, trueUtc) <==>
      0.0 <= transit <= f.rttMs as real && Lowest(f, now, transit) <= trueUtc <= Highest(f, now, transit)
  {
    var spare := f.rttMs as real - transit;
    var age := f.freshnessAgeMs as real + transit + Elapsed(f, now) as real;
    assert age == AgeAt(f, now) as real - spare;
    DriftSplits(f.driftPpm as real, AgeAt(f, now) as real, spare);
    assert Drifted(f, now) as real == f.driftPpm as real * AgeAt(f, now) as real;
    Spread(spare, f.driftPpm as real / 1000000.0);
  }

  lemma Spread(spare: real, k: real)
    ensures spare * (1.0 - k) == spare - spare * k && spare * (1.0 + k) == spare + spare * k
  {
  }

  /** A trusted snapshot has a positive drift bound and no negative error or age. */
  lemma GrantSigns(f: Snapshot, cfg: Config, now: int, lkg: Option<int>)
    requires GatePlatform(f, cfg, now, lkg).sample.trust == Trusted
    ensures f.driftPpm > 0 && f.uncertaintyMs >= 0 && f.freshnessAgeMs >= 0
    ensures f.rttMs >= 0 ==> Drifted(f, now) >= 0
  {
    GateGrantsExactly(f, cfg, now, lkg);
    hide GatePlatform, Contains;
  }

  lemma ProductSigns(a: real, b: real)
    requires a >= 0.0
    ensures Times(a, b) > 0.0 <==> a > 0.0 && b > 0.0
    ensures b >= 0.0 ==> Times(a, b) >= 0.0
    ensures a == 0.0 ==> Times(a, b) == 0.0
  {
  }

  /** Where the ends of the admitted range lie against the ends of the report: they differ by
      what the division dropped and by the spare part of the round trip. */
  lemma EndsAgainstReport(f: Snapshot, now: int, transit: real)
    requires f.driftPpm > 0 && Drifted(f, now) >= 0 && 0.0 <= transit <= f.rttMs as real
    ensures Lowest(f, now, transit) < (UtcAt(f, now) - UncertaintyAt(f, now)) as real ==>
              Drifted(f, now) % 1_000_000 != 0 || (transit < f.rttMs as real && f.driftPpm < 1_000_000)
    ensures Highest(f, now, transit) > (UtcAt(f, now) + UncertaintyAt(f, now)) as real ==>
              Drifted(f, now) % 1_000_000 != 0
    ensures transit == f.rttMs as real && Drifted(f, now) % 1_000_000 != 0 ==>
              (Lowest(f, now, transit) < (UtcAt(f, now) - UncertaintyAt(f, now)) as real
               && Highest(f, now, transit) > (UtcAt(f, now) + UncertaintyAt(f, now)) as real)
    ensures transit < f.rttMs as real && f.driftPpm < 1_000_000 ==>
              Lowest(f, now, transit) < (UtcAt(f, now) - UncertaintyAt(f, now)) as real
  {
    hide AgeAt, UtcAt, Elapsed, TruncDiv, LowerSlack, UpperSlack;
    DroppedExactly(Drifted(f, now));
    SlackSigns(f, f.rttMs as real - transit);
    assert UncertaintyAt(f, now) == f.uncertaintyMs + TruncDiv(Drifted(f, now), 1_000_000);
    hide Drifted;
  }

  lemma SlackSigns(f: Snapshot, spare: real)
    requires f.driftPpm > 0 && spare >= 0.0
    ensures LowerSlack(f, spare) > 0.0 <==> spare > 0.0 && f.driftPpm < 1_000_000
    ensures UpperSlack(f, spare) >= 0.0
    ensures spare == 0.0 ==> LowerSlack(f, spare) == 0.0 && UpperSlack(f, spare) == 0.0
  {
    hide Times;
    var k := f.driftPpm as real / 1000000.0;
    ProductSigns(spare, 1.0 - k);
    ProductSigns(spare, 1.0 + k);
  }

  lemma RangeNotEmpty(f: Snapshot, now: int, transit: real)
    requires f.driftPpm > 0 && f.uncertaintyMs >= 0 && f.freshnessAgeMs >= 0 && 0.0 <= transit <= f.rttMs as real
    ensures BoundsHold(f, now, transit, Lowest(f, now, transit))
    ensures BoundsHold(f, now, transit, Highest(f, now, transit))
  {
    var age := f.freshnessAgeMs as real + transit + Elapsed(f, now) as real;
    ProductSigns(f.driftPpm as real, age);
    var estimate := f.utcEpochMs as real + age;
    assert BoundsHold(f, now, transit, estimate);
    BoundsAre(f, now, transit, estimate);
    BoundsAre(f, now, transit, Lowest(f, now, transit));
    BoundsAre(f, now, transit, Highest(f, now, transit));
  }

  /** True UTC can lie above the reported interval, at some transit the round trip allows, if
      and only if the drift division drops something. */
  lemma AboveReportExactly(f: Snapshot, cfg: Config, now: int, lkg: Option<int>)
    requires GatePlatform(f, cfg, now, lkg).sample.trust == Trusted && f.rttMs >= 0
    ensures (exists transit, trueUtc :: BoundsHold(f, now, transit, trueUtc) && AboveReport(f, now, trueUtc))
            <==> Drifted(f, now) % 1_000_000 != 0
  {
    GrantSigns(f, cfg, now, lkg);
    hide GatePlatform, BoundsHold, Lowest, Highest, Drifted;
    forall transit, trueUtc | BoundsHold(f, now, transit, trueUtc) && AboveReport(f, now, trueUtc)
      ensures Drifted(f, now) % 1_000_000 != 0
    {
      BoundsAre(f, now, transit, trueUtc);
      EndsAgainstReport(f, now, transit);
    }
    var slowest := f.rttMs as real;
    EndsAgainstReport(f, now, slowest);
    RangeNotEmpty(f, now, slowest);
    if Drifted(f, now) % 1_000_000 != 0 {
      assert BoundsHold(f, now, slowest, Highest(f, now, slowest)) && AboveReport(f, now, Highest(f, now, slowest));
    }
  }

  /** It can lie below, by up to the whole round trip, if and only if the division drops
      something or there was a round trip that the drift does not outgrow. */
  lemma BelowReportExactly(f: Snapshot, cfg: Config, now: int, lkg: Option<int>)
    requires GatePlatform(f, cfg, now, lkg).sample.trust == Trusted && f.rttMs >= 0
    ensures (exists transit, trueUtc :: BoundsHold(f, now, transit, trueUtc) && BelowReport(f, now, trueUtc))
            <==> Drifted(f, now) % 1_000_000 != 0 || (f.rttMs > 0 && f.driftPpm < 1_000_000)
  {
    GrantSigns(f, cfg, now, lkg);
    hide GatePlatform, BoundsHold, Lowest, Highest, Drifted;
    forall transit, trueUtc | BoundsHold(f, now, transit, trueUtc) && BelowReport(f, now, trueUtc)
      ensures Drifted(f, now) % 1_000_000 != 0 || (f.rttMs > 0 && f.driftPpm < 1_000_000)
    {
      BoundsAre(f, now, transit, trueUtc);
      EndsAgainstReport(f, now, transit);
    }
    var slowest := f.rttMs as real;
    EndsAgainstReport(f, now, slowest);
    EndsAgainstReport(f, now, 0.0);
    RangeNotEmpty(f, now, slowest);
    RangeNotEmpty(f, now, 0.0);
    if Drifted(f, now) % 1_000_000 != 0 {
      assert BoundsHold(f, now, slowest, Lowest(f, now, slowest)) && BelowReport(f, now, Lowest(f, now, slowest));
    } else if f.rttMs > 0 && f.driftPpm < 1_000_000 {
      assert BoundsHold(f, now, 0.0, Lowest(f, now, 0.0)) && BelowReport(f, now, Lowest(f, now, 0.0));
    }
  }

  lemma NoTransit(f: Snapshot, now: int)
    requires f.rttMs < 0
    ensures forall transit, trueUtc :: !BoundsHold(f, now, transit, trueUtc)
  {
  }

  /** The reported utc and uncertainty enclose true UTC, whatever the transit and the error
      within the bounds, if and only if the drift division is exact and either there was no
      round trip or the drift bound is at least one second per second. (A negative round trip
      leaves no transit to speak of.) */
  lemma ReportEnclosesExactly(f: Snapshot, cfg: Config, now: int, lkg: Option<int>)
    requires GatePlatform(f, cfg, now, lkg).sample.trust == Trusted
    ensures (forall transit, trueUtc :: BoundsHold(f, now, transit, trueUtc) ==>
               !AboveReport(f, now, trueUtc) && !BelowReport(f, now, trueUtc))
            <==> f.rttMs < 0 || (Drifted(f, now) % 1_000_000 == 0 && (f.rttMs == 0 || f.driftPpm >= 1_000_000))
  {
    hide GatePlatform, BoundsHold, AboveReport, BelowReport, Drifted;
    if f.rttMs < 0 {
      NoTransit(f, now);
    } else {
      AboveReportExactly(f, cfg, now, lkg);
      BelowReportExactly(f, cfg, now, lkg);
    }
  }

  lemma DroppedExactly(x: int)
    requires x >= 0
    ensures var dropped := x as real / 1000000.0 - TruncDiv(x, 1_000_000) as real;
            dropped >= 0.0 && (dropped > 0.0 <==> x % 1_000_000 != 0)
  {
    var q := x / 1_000_000;
    assert x == q * 1_000_000 + x % 1_000_000;
    assert x as real == q as real * 1000000.0 + (x % 1_000_000) as real;
  }
}
