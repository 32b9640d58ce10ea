/** What granted times, the rollback guard and the lease mean. */
module TrustedTimeTheorems {
  import opened Wrappers
  import opened TrustedTime

  // ---- exactly what the platform gate grants ----

  /** The gate grants exactly this. The age and the uncertainty must stay strictly below
      their limits: at the limit the lease is zero and the grant is withheld. */
  lemma GateGrantsExactly(f: Snapshot, cfg: Config, now: int, lkg: Option<int>)
    ensures GatePlatform(f, cfg, now, lkg).sample.trust == Trusted <==>
      && f.transportOk && f.state == Synced && ContractComplete(f) && AuthBound(f, cfg)
      && f.utcValid && f.uncertaintyValid
      && AgeAt(f, now) < cfg.maxFreshnessMs && UncertaintyAt(f, now) < cfg.maxUncertaintyMs
      && RemainingAt(f, now) > 0 && cfg.leaseMaxMs > 0
      && !RolledBack(lkg, UtcAt(f, now), cfg)
    ensures GatePlatform(f, cfg, now, lkg).sample.trust == Trusted ==>
      var r := GatePlatform(f, cfg, now, lkg);
      && r.sample.utcNs == UtcAt(f, now) * NS_PER_MS && r.sample.uncertaintyMs == UncertaintyAt(f, now)
      && r.sample.freshnessMs == AgeAt(f, now) && r.remainingMs == LeaseAt(f, cfg, now) > 0
      && r.sample.source == PlatformSync
  {
    hide Contains;
  }

  // ---- last-known-good ----

  /** The instants of the trusted answers of a run, in order, and the guard's final value. */
  function Grants(rds: seq<Reading>, cfg: Config, lkg: Option<int>): (r: (seq<int>, Option<int>))
    decreases |rds|
  {
    if rds == [] then ([], lkg)
    else
      var (a, next) := Choose(rds[0], cfg, lkg);
      var (rest, last) := Grants(rds[1..], cfg, next);
      (if a.sample.trust == Trusted then [a.sample.utcNs] + rest else rest, last)
  }

  /** `m` is the largest of `lkg`, when there is one, and all of `times`. */
  ghost predicate IsMax(m: Option<int>, lkg: Option<int>, times: seq<int>) {
    && (m.None? <==> lkg.None? && times == [])
    && (m.Some? ==> (m == lkg || m.value in times))
    && (m.Some? && lkg.Some? ==> lkg.value <= m.value)
    && (m.Some? ==> forall t :: t in times ==> t <= m.value)
  }

  lemma ChoiceAccepts(rd: Reading, cfg: Config, lkg: Option<int>)
    ensures var (a, next) := Choose(rd, cfg, lkg);
            next == if a.sample.trust == Trusted then AcceptAsKnownGood(lkg, a.sample) else lkg
  {
    hide GatePlatform, GateRtc;
  }

  /** Over any sequence of queries, mixing platform and RTC grants, last-known-good is the
      largest instant ever granted. */
  lemma {:induction false} LkgIsLargestGrant(rds: seq<Reading>, cfg: Config, lkg: Option<int>)
    ensures var (times, last) := Grants(rds, cfg, lkg); IsMax(last, lkg, times)
    decreases |rds|
  {
    if rds != [] {
      var (a, next) := Choose(rds[0], cfg, lkg);
      ChoiceAccepts(rds[0], cfg, lkg);
      hide Choose;
      LkgIsLargestGrant(rds[1..], cfg, next);
    }
  }

  /** Cutting the instant to milliseconds does not lower it. */
  predicate Clean(ns: int) { ns <= 0 || ns % NS_PER_MS == 0 }

  lemma TruncatedMs(l: int)
    ensures TruncDiv(l, NS_PER_MS) * NS_PER_MS > l - NS_PER_MS
    ensures Clean(l) ==> TruncDiv(l, NS_PER_MS) * NS_PER_MS >= l
  {
  }

  /** How far below last-known-good a granted instant can be: the tolerance for an RTC grant;
      up to a millisecond more for a platform grant, because last-known-good is cut to whole
      milliseconds for that comparison. */
  lemma GrantAboveTolerance(rd: Reading, cfg: Config, lkg: int)
    requires Choose(rd, cfg, Some(lkg)).0.sample.trust == Trusted
    ensures var t := Choose(rd, cfg, Some(lkg)).0.sample;
            && t.utcNs > lkg - (cfg.rollbackToleranceMs + 1) * NS_PER_MS
            && (t.source == HardwareRtc || Clean(lkg) ==>
                  t.utcNs >= lkg - cfg.rollbackToleranceMs * NS_PER_MS)
  {
    TruncatedMs(lkg);
    if cfg.platformEnabled { GateGrantsExactly(rd.platform, cfg, rd.now, Some(lkg)); }
    hide GatePlatform;
  }

  /** A platform grant goes below the tolerance in exactly one case: last-known-good has a
      part below the millisecond and the granted instant is the lowest the gate lets pass. */
  lemma PlatformUndershootExactly(f: Snapshot, cfg: Config, now: int, lkg: int)
    requires GatePlatform(f, cfg, now, Some(lkg)).sample.trust == Trusted
    ensures GatePlatform(f, cfg, now, Some(lkg)).sample.utcNs < lkg - cfg.rollbackToleranceMs * NS_PER_MS <==>
            !Clean(lkg) && UtcAt(f, now) + cfg.rollbackToleranceMs == lkg / NS_PER_MS
  {
    GateGrantsExactly(f, cfg, now, Some(lkg));
    hide GatePlatform;
    if lkg > 0 {
      assert lkg == (lkg / NS_PER_MS) * NS_PER_MS + lkg % NS_PER_MS;
    } else {
      TruncatedMs(lkg);
    }
  }

  /** A snapshot that the default configuration grants at the instant `utcMs`. */
  function GoodSnapshot(utcMs: int): Snapshot {
    Snapshot(true, true, 1, "snapshot,v1", 1, Synced, "s", NtpNetwork, 1, true, utcMs, true, 0, true, 0,
             1000, 1, Verified, "e", "1", 0, 0)
  }

  /** The tolerance is kept by every platform grant if and only if last-known-good is a whole
      number of milliseconds or not positive. */
  lemma ToleranceKeptExactlyOnWholeMilliseconds(lkg: int)
    ensures (forall f, now :: GatePlatform(f, DEFAULT, now, Some(lkg)).sample.trust == Trusted ==>
               GatePlatform(f, DEFAULT, now, Some(lkg)).sample.utcNs >= lkg - DEFAULT.rollbackToleranceMs * NS_PER_MS)
            <==> Clean(lkg)
  {
    hide GatePlatform, Contains;
    if Clean(lkg) {
      forall f, now | GatePlatform(f, DEFAULT, now, Some(lkg)).sample.trust == Trusted
        ensures GatePlatform(f, DEFAULT, now, Some(lkg)).sample.utcNs >= lkg - DEFAULT.rollbackToleranceMs * NS_PER_MS
      {
        PlatformUndershootExactly(f, DEFAULT, now, lkg);
      }
    } else {
      var f := GoodSnapshot(lkg / NS_PER_MS - DEFAULT.rollbackToleranceMs);
      GoodSnapshotComplete(lkg / NS_PER_MS - DEFAULT.rollbackToleranceMs);
      GateGrantsExactly(f, DEFAULT, 0, Some(lkg));
      PlatformUndershootExactly(f, DEFAULT, 0, lkg);
    }
  }

  lemma GoodSnapshotComplete(utcMs: int)
    ensures ContractComplete(GoodSnapshot(utcMs))
  {
    assert OccursAt("snapshot,v1", "snapshot", 0);
  }

  // ---- the rollback tolerance over whole runs ----

  /** Every instant is at least `guard`, and every earlier instant, minus `d`. */
  ghost predicate Within(times: seq<int>, guard: Option<int>, d: int) {
    && (forall j :: 0 <= j < |times| && guard.Some? ==> times[j] >= guard.value - d)
    && (forall i, j :: 0 <= i < j < |times| ==> times[j] >= times[i] - d)
  }

  lemma WithinCons(t: int, rest: seq<int>, guard: Option<int>, d: int)
    ensures Within([t] + rest, guard, d) <==>
      && (guard.Some? ==> t >= guard.value - d)
      && Within(rest, if guard.None? || t > guard.value then Some(t) else guard, d)
  {
    var times := [t] + rest;
    var next := if guard.None? || t > guard.value then Some(t) else guard;
    assert forall j :: 0 <= j < |rest| ==> times[j + 1] == rest[j];
    if Within(times, guard, d) {
      assert times[0] == t;
      forall j | 0 <= j < |rest| ensures rest[j] >= next.value - d { assert times[j + 1] >= times[0] - d; }
      forall i, j | 0 <= i < j < |rest| ensures rest[j] >= rest[i] - d { assert times[j + 1] >= times[i + 1] - d; }
    }
    if (guard.Some? ==> t >= guard.value - d) && Within(rest, next, d) {
      forall i, j | 0 <= i < j < |times| ensures times[j] >= times[i] - d {
        assert times[j] == rest[j - 1] && rest[j - 1] >= next.value - d;
        if i > 0 { assert times[i] == rest[i - 1]; }
      }
    }
  }

  /** The case of `PlatformUndershootExactly` as a test on one query and the guard before it. */
  ghost predicate Undershoots(rd: Reading, cfg: Config, lkg: Option<int>) {
    && cfg.platformEnabled && GatePlatform(rd.platform, cfg, rd.now, lkg).sample.trust == Trusted
    && lkg.Some? && !Clean(lkg.value)
    && UtcAt(rd.platform, rd.now) + cfg.rollbackToleranceMs == lkg.value / NS_PER_MS
  }

  ghost predicate SomeUndershoot(rds: seq<Reading>, cfg: Config, lkg: Option<int>)
    decreases |rds|
  {
    rds != [] && (Undershoots(rds[0], cfg, lkg) || SomeUndershoot(rds[1..], cfg, Choose(rds[0], cfg, lkg).1))
  }

  lemma BelowToleranceExactly(rd: Reading, cfg: Config, lkg: Option<int>)
    ensures var s := Choose(rd, cfg, lkg).0.sample;
            Undershoots(rd, cfg, lkg) <==>
              s.trust == Trusted && lkg.Some? && s.utcNs < lkg.value - cfg.rollbackToleranceMs * NS_PER_MS
  {
    if lkg.Some? && cfg.platformEnabled && GatePlatform(rd.platform, cfg, rd.now, lkg).sample.trust == Trusted {
      PlatformUndershootExactly(rd.platform, cfg, rd.now, lkg.value);
    }
    hide GatePlatform;
  }

  /** A run keeps the tolerance between all its grants, and to the guard it starts with, if and
      only if none of its queries undershoots. */
  lemma {:induction false} ToleranceKeptExactly(rds: seq<Reading>, cfg: Config, lkg: Option<int>)
    ensures Within(Grants(rds, cfg, lkg).0, lkg, cfg.rollbackToleranceMs * NS_PER_MS) <==>
            !SomeUndershoot(rds, cfg, lkg)
    decreases |rds|
  {
    if rds != [] {
      var (a, next) := Choose(rds[0], cfg, lkg);
      ChoiceAccepts(rds[0], cfg, lkg);
      BelowToleranceExactly(rds[0], cfg, lkg);
      ToleranceKeptExactly(rds[1..], cfg, next);
      hide Choose, Undershoots, Within;
      WithinCons(a.sample.utcNs, Grants(rds[1..], cfg, next).0, lkg, cfg.rollbackToleranceMs * NS_PER_MS);
    }
  }

  lemma {:induction false} WithinOneMs(rds: seq<Reading>, cfg: Config, lkg: Option<int>)
    ensures Within(Grants(rds, cfg, lkg).0, lkg, (cfg.rollbackToleranceMs + 1) * NS_PER_MS - 1)
    decreases |rds|
  {
    if rds != [] {
      var (a, next) := Choose(rds[0], cfg, lkg);
      ChoiceAccepts(rds[0], cfg, lkg);
      if a.sample.trust == Trusted && lkg.Some? { GrantAboveTolerance(rds[0], cfg, lkg.value); }
      WithinOneMs(rds[1..], cfg, next);
      hide Choose, Within;
      WithinCons(a.sample.utcNs, Grants(rds[1..], cfg, next).0, lkg, (cfg.rollbackToleranceMs + 1) * NS_PER_MS - 1);
    }
  }

  // ---- which RTC sources keep it ----

  /** Every trusted RTC sample of the run is at an instant of `source`. */
  ghost predicate DrawnFrom(rds: seq<Reading>, source: iset<int>) {
    forall i :: 0 <= i < |rds| && rds[i].rtc.trust == Trusted ==> rds[i].rtc.utcNs in source
  }

  ghost predicate CleanSource(source: iset<int>) { forall l :: l in source ==> Clean(l) }

  lemma GrantClean(rd: Reading, cfg: Config, lkg: Option<int>)
    requires rd.rtc.trust == Trusted ==> Clean(rd.rtc.utcNs)
    requires Choose(rd, cfg, lkg).0.sample.trust == Trusted
    ensures Clean(Choose(rd, cfg, lkg).0.sample.utcNs)
  {
    if cfg.platformEnabled { GateGrantsExactly(rd.platform, cfg, rd.now, lkg); }
    hide GatePlatform;
  }

  lemma {:induction false} CleanNeverUndershoots(
    rds: seq<Reading>, cfg: Config, lkg: Option<int>, source: iset<int>)
    requires CleanSource(source) && DrawnFrom(rds, source) && (lkg.Some? ==> Clean(lkg.value))
    ensures !SomeUndershoot(rds, cfg, lkg)
    decreases |rds|
  {
    if rds != [] {
      var (a, next) := Choose(rds[0], cfg, lkg);
      ChoiceAccepts(rds[0], cfg, lkg);
      if a.sample.trust == Trusted { GrantClean(rds[0], cfg, lkg); }
      hide Choose, CleanSource;
      CleanNeverUndershoots(rds[1..], cfg, next, source);
    }
  }

  /** From an empty guard: the RTC grants the instant `ns`, then the platform grants the lowest
      instant its gate lets pass. */
  function UndershootRun(ns: int): seq<Reading> {
    [Reading(GoodSnapshot(0).(transportOk := false), Sample(ns, Trusted, HardwareRtc, 0, 0, RtcProvisioned, 1), 0),
     Reading(GoodSnapshot(ns / NS_PER_MS - DEFAULT.rollbackToleranceMs), BLANK, 0)]
  }

  lemma UndershootIsReached(ns: int)
    requires !Clean(ns)
    ensures var (times, last) := Grants(UndershootRun(ns), DEFAULT, None);
            && |times| == 2 && times[0] == ns
            && times[1] < times[0] - DEFAULT.rollbackToleranceMs * NS_PER_MS
            && !Within(times, None, DEFAULT.rollbackToleranceMs * NS_PER_MS)
  {
    var rds := UndershootRun(ns);
    assert Choose(rds[0], DEFAULT, None).1 == Some(ns);
    GoodSnapshotComplete(ns / NS_PER_MS - DEFAULT.rollbackToleranceMs);
    GateGrantsExactly(rds[1].platform, DEFAULT, 0, Some(ns));
    PlatformUndershootExactly(rds[1].platform, DEFAULT, 0, ns);
    hide GatePlatform, Contains;
    assert Grants(rds[1..], DEFAULT, Some(ns)).0 == [Choose(rds[1], DEFAULT, Some(ns)).0.sample.utcNs] + [];
  }

  /** Under the default configuration every run from an empty guard keeps the tolerance if and
      only if the RTC grants whole milliseconds or instants that are not positive. */
  lemma ToleranceKeptExactlyByCleanSources(source: iset<int>)
    ensures (forall rds :: DrawnFrom(rds, source) ==>
               Within(Grants(rds, DEFAULT, None).0, None, DEFAULT.rollbackToleranceMs * NS_PER_MS))
            <==> CleanSource(source)
  {
    hide Grants, Within;
    if CleanSource(source) {
      forall rds | DrawnFrom(rds, source)
        ensures Within(Grants(rds, DEFAULT, None).0, None, DEFAULT.rollbackToleranceMs * NS_PER_MS)
      {
        CleanNeverUndershoots(rds, DEFAULT, None, source);
        ToleranceKeptExactly(rds, DEFAULT, None);
      }
    } else {
      var ns :| ns in source && !Clean(ns);
      UndershootIsReached(ns);
      assert DrawnFrom(UndershootRun(ns), source);
    }
  }

  /** What the RTC adapter of the service answers today. */
  const NO_RTC := Sample(0, Untrusted, HardwareRtc, 0, 0, RtcInterfaceUnavailable, 0)

  lemma NoRtcKeepsTolerance(rds: seq<Reading>, cfg: Config)
    requires forall i :: 0 <= i < |rds| ==> rds[i].rtc == NO_RTC
    ensures Within(Grants(rds, cfg, None).0, None, cfg.rollbackToleranceMs * NS_PER_MS)
  {
    CleanNeverUndershoots(rds, cfg, None, iset{});
    ToleranceKeptExactly(rds, cfg, None);
  }

  /** Over any run, each granted instant is at least every earlier one minus the tolerance,
      short of that by less than a millisecond; not short at all when the guard and the RTC are
      clean. */
  lemma EveryGrantAboveEarlier(rds: seq<Reading>, cfg: Config, lkg: Option<int>, i: nat, j: nat, source: iset<int>)
    requires i < j < |Grants(rds, cfg, lkg).0| && DrawnFrom(rds, source)
    ensures var times := Grants(rds, cfg, lkg).0;
            && times[j] > times[i] - (cfg.rollbackToleranceMs + 1) * NS_PER_MS
            && (CleanSource(source) && (lkg.Some? ==> Clean(lkg.value)) ==>
                  times[j] >= times[i] - cfg.rollbackToleranceMs * NS_PER_MS)
  {
    hide Grants, CleanSource;
    WithinOneMs(rds, cfg, lkg);
    if CleanSource(source) && (lkg.Some? ==> Clean(lkg.value)) {
      CleanNeverUndershoots(rds, cfg, lkg, source);
      ToleranceKeptExactly(rds, cfg, lkg);
    }
  }
}
