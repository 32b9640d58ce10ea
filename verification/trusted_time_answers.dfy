/** What each time query answers, said without the functions that compute it: the reason of
    every refusal, the RTC's grants, which refusal is reported when nothing is granted, and what
    is left of a cached answer. */
module TrustedTimeAnswers {
  import opened Wrappers
  import opened TrustedTime
  import opened TrustedTimeTheorems
  import opened TrustedTimeMonitor

  // ---- the platform gate ----

  /** The snapshot carries a complete contract. */
  ghost predicate Complete(f: Snapshot) {
    && f.validated && f.contractVersion >= 1 && f.daemonEpoch >= 1 && f.sourceId != "" && f.sourceKind != NoKind
    && f.policyVersion != "" && f.driftPpm >= 1
    && f.remainingValidityMs >= 0 && f.freshnessAgeMs >= 0 && f.uncertaintyMs >= 0
    && NamesSnapshot(f.capabilities)
  }

  lemma CompleteIs(f: Snapshot)
    ensures Complete(f) <==> ContractComplete(f)
    ensures Complete(f) ==> f.validated
  {
    NamesSnapshotIs(f.capabilities);
    hide Contains, NamesSnapshot;
  }

  ghost predicate NamesSnapshot(s: string) { exists i :: 0 <= i <= |s| && "snapshot" <= s[i..] }

  lemma NamesSnapshotIs(s: string)
    ensures NamesSnapshot(s) <==> Contains(s, "snapshot")
  {
    if Contains(s, "snapshot") {
      var i: nat :| i <= |s| && OccursAt(s, "snapshot", i);
      assert s[i..][..8] == s[i..i + 8] && "snapshot" <= s[i..];
    }
    if NamesSnapshot(s) {
      var i :| 0 <= i <= |s| && "snapshot" <= s[i..];
      assert s[i..][..8] == s[i..i + 8];
      assert OccursAt(s, "snapshot", i);
    }
  }

  /** The evidence is verified, under an approved policy and source. */
  ghost predicate Approved(f: Snapshot, cfg: Config) {
    && f.auth == Verified && (exists i :: 0 <= i < |cfg.approvedPolicies| && cfg.approvedPolicies[i] == f.policyVersion)
    && (cfg.requireEvidence ==> f.evidenceRef != "")
    && (cfg.approvedSources != [] ==> f.sourceId in cfg.approvedSources)
  }

  /** The snapshot is synchronised, complete and approved, with values to gate. */
  ghost predicate Usable(f: Snapshot, cfg: Config) {
    f.transportOk && f.state == Synced && Complete(f) && Approved(f, cfg) && f.utcValid && f.uncertaintyValid
  }

  /** Whole milliseconds since the snapshot was received. */
  ghost function Since(f: Snapshot, now: int): int { if now > f.receivedBootMs then now - f.receivedBootMs else 0 }

  /** The facts of a validated snapshot go into every answer about it. */
  ghost predicate CarriesFacts(r: Result, f: Snapshot) {
    && r.contractVersion == f.contractVersion && r.daemonEpoch == f.daemonEpoch && r.sourceId == f.sourceId
    && r.aligned == f.aligned && r.sample.sourceEpoch == f.sourceEpoch
  }

  /** The whole answer of the platform gate, reason by reason, in the order the checks come in;
      age, uncertainty, remaining validity and rollback limit are written out. */
  lemma GateAnswersExactly(f: Snapshot, cfg: Config, now: int, lkg: Option<int>)
    ensures var r := GatePlatform(f, cfg, now, lkg);
            var reason := r.sample.reason;
            var age := f.freshnessAgeMs + f.rttMs + Since(f, now);
            var uncertainty := f.uncertaintyMs + TruncDiv(f.driftPpm * age, 1_000_000);
            var remaining := f.remainingValidityMs - f.rttMs - Since(f, now);
            var fits := age <= cfg.maxFreshnessMs && uncertainty <= cfg.maxUncertaintyMs;
            var rolledBack := lkg.Some? &&
              f.utcEpochMs + age < TruncDiv(lkg.value, 1_000_000) - cfg.rollbackToleranceMs;
            var spare := age < cfg.maxFreshnessMs && uncertainty < cfg.maxUncertaintyMs && remaining > 0
                         && cfg.leaseMaxMs > 0;
            && (reason == PlatformInterfaceUnavailable <==> !f.transportOk)
            && (reason == PlatformNotSynchronized <==> f.transportOk && f.validated && f.state != Synced)
            && (reason == PlatformNotAuthenticated <==>
                  f.transportOk && f.state == Synced && Complete(f) && f.auth in {Unverified, AuthFailed})
            && (reason == PlatformAuthUnverifiable <==>
                  f.transportOk && f.state == Synced && Complete(f) && f.auth !in {Unverified, AuthFailed}
                  && !Approved(f, cfg))
            && (reason == PlatformContractIncomplete <==>
                  f.transportOk && (!f.validated || (f.state == Synced &&
                    (!Complete(f) || (Approved(f, cfg) && !(f.utcValid && f.uncertaintyValid))))))
            && (reason == PlatformTooOld <==> Usable(f, cfg) && age > cfg.maxFreshnessMs)
            && (reason == PlatformUncertaintyTooHigh <==>
                  Usable(f, cfg) && age <= cfg.maxFreshnessMs && uncertainty > cfg.maxUncertaintyMs)
            && (reason == PlatformRollbackDetected <==> Usable(f, cfg) && fits && rolledBack)
            && (reason == PlatformValidityExpired <==> Usable(f, cfg) && fits && !rolledBack && !spare)
            && (reason == PlatformSynced <==> Usable(f, cfg) && fits && !rolledBack && spare)
            && (r.sample.trust == Trusted <==> reason == PlatformSynced)
            && (r.sample.trust == UnknownTrust <==>
                  reason in {PlatformInterfaceUnavailable, PlatformContractIncomplete, PlatformAuthUnverifiable})
            && r.sample.source == PlatformSync && (f.transportOk && f.validated ==> CarriesFacts(r, f))
            && (r.contractComplete <==> f.transportOk && f.state == Synced && Complete(f))
            && (reason == PlatformSynced ==>
                  && r.sample.utcNs == (f.utcEpochMs + age) * 1_000_000 && r.sample.uncertaintyMs == uncertainty
                  && r.sample.freshnessMs == age
                  && r.remainingMs in {cfg.leaseMaxMs, remaining, cfg.maxFreshnessMs - age,
                                       cfg.maxUncertaintyMs - uncertainty}
                  && r.remainingMs <= cfg.leaseMaxMs && r.remainingMs <= remaining
                  && r.remainingMs <= cfg.maxFreshnessMs - age
                  && r.remainingMs <= cfg.maxUncertaintyMs - uncertainty)
            && (reason != PlatformSynced ==> r.remainingMs == 0)
  {
    hide ContractComplete, Complete, AuthBound, Approved;
    CompleteIs(f);
    ApprovedIs(f, cfg);
  }

  lemma ApprovedIs(f: Snapshot, cfg: Config)
    ensures Approved(f, cfg) <==> AuthBound(f, cfg)
    ensures Approved(f, cfg) ==> f.auth == Verified
  {
  }

  // ---- the RTC gate ----

  /** The whole answer of the RTC gate. A granted sample is passed on as it is, with a lease of
      what its uncertainty leaves, at most the lease limit; the freshness limit does not apply. */
  lemma RtcAnswersExactly(s: Sample, cfg: Config, lkg: Option<int>)
    ensures var r := GateRtc(s, cfg, lkg);
            var provisioned := cfg.rtcRequireProvisioned ==> s.reason == RtcProvisioned;
            var rolledBack := lkg.Some? && s.utcNs < lkg.value - cfg.rollbackToleranceMs * 1_000_000;
            var spare := s.uncertaintyMs < cfg.maxUncertaintyMs && cfg.leaseMaxMs > 0;
            && (r.sample.trust == Trusted <==>
                  s.trust == Trusted && s.source == HardwareRtc && provisioned && !rolledBack && spare)
            && (r.sample.trust == Trusted ==>
                  r.sample == s && 0 < r.remainingMs <= cfg.leaseMaxMs
                  && r.remainingMs <= cfg.maxUncertaintyMs - s.uncertaintyMs
                  && r.remainingMs in {cfg.leaseMaxMs, cfg.maxUncertaintyMs - s.uncertaintyMs})
            && (s.trust != Trusted ==> r.sample == s)
            && (r.sample.trust != Trusted ==> r.remainingMs == 0)
            && (s.trust == Trusted && r.sample.trust != Trusted ==>
                  r.sample == s.(trust := Untrusted, reason := r.sample.reason)
                  && r.sample.reason == if s.source != HardwareRtc then PlatformMalformed
                                        else if !provisioned then RtcNotProvisioned
                                        else if rolledBack && s.uncertaintyMs <= cfg.maxUncertaintyMs
                                        then RtcRollbackDetected
                                        else RtcNotHealthy)
  {
  }

  // ---- which refusal is reported ----

  /** What the platform said, or that there is none. */
  ghost function PlatformAnswer(rd: Reading, cfg: Config, lkg: Option<int>): Result {
    if cfg.platformEnabled then GatePlatform(rd.platform, cfg, rd.now, lkg)
    else BLANK_RESULT.(sample := BLANK.(trust := Untrusted, reason := NoSourceAvailable))
  }

  /** The RTC's refusal says more than the platform's: there was no platform at all and the RTC
      gave some reason, or the platform could not be reached and the RTC gave a reason of its own
      that is not the same. */
  ghost predicate RtcSaysMore(p: Reason, g: Reason) {
    || (p == NoSourceAvailable && g != NoSourceAvailable)
    || (p in {PlatformInterfaceUnavailable, RtcInterfaceUnavailable}
        && g !in {NoSourceAvailable, PlatformInterfaceUnavailable, RtcInterfaceUnavailable})
  }

  /** The answer of a query. The platform's grant comes first, then the RTC's. When neither grants,
      the guard stays and the answer is the RTC's if and only if it was asked and says more; in
      every other case it is the platform's, with its reason, source and contract facts. */
  lemma QueryAnswersExactly(rd: Reading, cfg: Config, lkg: Option<int>)
    ensures var (r, next) := Choose(rd, cfg, lkg);
            var p := PlatformAnswer(rd, cfg, lkg);
            var g := GateRtc(rd.rtc, cfg, lkg);
            && (p.sample.trust == Trusted ==> r == p)
            && (p.sample.trust != Trusted && cfg.rtcEnabled && g.sample.trust == Trusted ==> r == g)
            && (p.sample.trust != Trusted && !(cfg.rtcEnabled && g.sample.trust == Trusted) ==>
                  next == lkg && r == if cfg.rtcEnabled && RtcSaysMore(p.sample.reason, g.sample.reason) then g else p)
            && (r.sample.trust == Trusted ==>
                  next.Some? && next.value ==
                    if lkg.Some? && lkg.value >= r.sample.utcNs then lkg.value else r.sample.utcNs)
  {
    hide GatePlatform, GateRtc;
  }

  /** A decisive refusal of the platform is never hidden: unless the RTC grants, whatever it says
      the answer is the platform's. */
  lemma DecisiveRefusalIsReported(rd: Reading, cfg: Config, lkg: Option<int>)
    requires cfg.platformEnabled
    requires var p := GatePlatform(rd.platform, cfg, rd.now, lkg);
             p.sample.trust != Trusted && p.sample.reason != PlatformInterfaceUnavailable
    ensures var r := Choose(rd, cfg, lkg).0;
            r.sample.trust == Trusted || r == GatePlatform(rd.platform, cfg, rd.now, lkg)
  {
    QueryAnswersExactly(rd, cfg, lkg);
    GateAnswersExactly(rd.platform, cfg, rd.now, lkg);
    hide GatePlatform, GateRtc, Choose;
  }

  /** With the repository's RTC adapter every refusal of an enabled platform is reported. */
  lemma NoRtcHidesNothing(rd: Reading, cfg: Config, lkg: Option<int>)
    requires cfg.platformEnabled && rd.rtc == NO_RTC
    ensures Choose(rd, cfg, lkg).0 == GatePlatform(rd.platform, cfg, rd.now, lkg)
  {
    QueryAnswersExactly(rd, cfg, lkg);
    GateAnswersExactly(rd.platform, cfg, rd.now, lkg);
    hide GatePlatform, Choose;
  }

  // ---- the cached answer ----

  /** What a cached answer is worth later: a trusted one stays trusted while its lease is longer
      than the time since the refresh, with exactly the rest, and then is expired; one that is not
      trusted is passed on. Everything else in it stays. */
  lemma AgedExactly(cached: Result, refreshedAt: int, now: int)
    ensures var r := AgedAt(cached, refreshedAt, now);
            var gone := if now > refreshedAt then now - refreshedAt else 0;
            && (r.sample.trust == Trusted <==> cached.sample.trust == Trusted && cached.remainingMs > gone)
            && (r.sample.trust == Trusted ==> r == cached.(remainingMs := cached.remainingMs - gone))
            && (cached.sample.trust != Trusted ==> r == cached)
            && (cached.sample.trust == Trusted && cached.remainingMs <= gone ==>
                  r == cached.(remainingMs := 0, sample := r.sample)
                  && r.sample == cached.sample.(trust := Untrusted, reason := TimeExpired))
  {
  }

  /** Two answers raise the same event if and only if they agree on trust, source and its id and
      epoch, the daemon's epoch, alignment, contract version and reason. */
  lemma SameFactsExactly(a: Result, b: Result)
    ensures !FactChanged(a, b) <==>
            (a.sample.trust, a.sample.source, a.sourceId, a.sample.sourceEpoch, a.daemonEpoch, a.aligned,
             a.contractVersion, a.sample.reason)
            == (b.sample.trust, b.sample.source, b.sourceId, b.sample.sourceEpoch, b.daemonEpoch, b.aligned,
                b.contractVersion, b.sample.reason)
  {
  }
}
