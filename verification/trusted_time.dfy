/** Trusted time: the gate over one platform or RTC reading, the rollback guard that all
    granted times pass, and the monitor's cached lease. Clock readings and source readings
    are arguments. */
module TrustedTime {
  import opened Wrappers

  datatype Trust = Trusted | Untrusted | UnknownTrust

  datatype Source = PlatformSync | HardwareRtc | NoSource

  datatype Reason =
    | PlatformSynced | PlatformNotSynchronized | PlatformNotAuthenticated | PlatformAuthUnverifiable
    | PlatformContractIncomplete | PlatformTooOld | PlatformUncertaintyTooHigh | PlatformRollbackDetected
    | PlatformValidityExpired | PlatformInterfaceUnavailable | PlatformMalformed
    | RtcProvisioned | RtcNotProvisioned | RtcNotHealthy | RtcOutOfRange | RtcRollbackDetected | RtcReadError
    | RtcInterfaceUnavailable | NoSourceAvailable | TimeExpired

  datatype SyncState = Unsynch | Syncing | Synced | Holdover | Fault

  datatype SourceKind = NoKind | NtpNetwork | Cellular | Gnss | RtcKind

  datatype AuthStatus = AuthUnknown | Unverified | Verified | AuthFailed

  /** One fact snapshot of the TIME service, with the transport facts of the hop to here. */
  datatype Snapshot = Snapshot(
    transportOk: bool, validated: bool, contractVersion: nat, capabilities: string, daemonEpoch: nat,
    state: SyncState, sourceId: string, sourceKind: SourceKind, sourceEpoch: nat,
    utcValid: bool, utcEpochMs: int, aligned: bool, freshnessAgeMs: int, uncertaintyValid: bool,
    uncertaintyMs: int, remainingValidityMs: int, driftPpm: int,
    auth: AuthStatus, evidenceRef: string, policyVersion: string, rttMs: int, receivedBootMs: int)

  /** A sample; the instant is kept in nanoseconds, the rest in milliseconds. */
  datatype Sample = Sample(utcNs: int, trust: Trust, source: Source, freshnessMs: int, uncertaintyMs: int,
                           reason: Reason, sourceEpoch: nat)

  datatype Result = Result(
    sample: Sample, contractVersion: nat, contractComplete: bool, daemonEpoch: nat, sourceId: string,
    aligned: bool, remainingMs: int, secEpoch: nat, sequence: nat, stale: bool)

  datatype Config = Config(
    platformEnabled: bool, maxFreshnessMs: int, maxUncertaintyMs: int, rtcEnabled: bool,
    rtcRequireProvisioned: bool, rollbackToleranceMs: int, leaseMaxMs: int,
    approvedPolicies: seq<string>, approvedSources: seq<string>, requireEvidence: bool)

  const DEFAULT := Config(true, 300000, 2000, true, true, 2000, 1000, ["1"], [], true)

  const NS_PER_MS := 1_000_000

  const BLANK := Sample(0, UnknownTrust, NoSource, 0, 0, NoSourceAvailable, 0)

  const BLANK_RESULT := Result(BLANK, 0, false, 0, "", false, 0, 0, 0, false)

  function Max(a: int, b: int): int { if a < b then b else a }

  function Min(a: int, b: int): int { if a < b then a else b }

  /** Division that truncates toward zero. */
  function TruncDiv(a: int, b: int): int
    requires b > 0
  {
    if a >= 0 then a / b else -((-a) / b)
  }

  // ---- the platform gate ----

  predicate OccursAt(s: string, sub: string, i: nat) { i + |sub| <= |s| && s[i..i + |sub|] == sub }

  predicate Contains(s: string, sub: string) { exists i: nat :: i <= |s| && OccursAt(s, sub, i) }

  predicate AuthBound(f: Snapshot, cfg: Config) {
    && f.auth == Verified
    && f.policyVersion in cfg.approvedPolicies
    && !(cfg.requireEvidence && f.evidenceRef == "")
    && !(cfg.approvedSources != [] && f.sourceId !in cfg.approvedSources)
  }

  predicate ContractComplete(f: Snapshot) {
    && f.validated && f.contractVersion != 0 && Contains(f.capabilities, "snapshot") && f.daemonEpoch != 0
    && f.sourceId != "" && f.sourceKind != NoKind && f.policyVersion != ""
    && f.driftPpm > 0 && f.remainingValidityMs >= 0 && f.freshnessAgeMs >= 0 && f.uncertaintyMs >= 0
  }

  function Elapsed(f: Snapshot, now: int): int { Max(0, now - f.receivedBootMs) }

  function AgeAt(f: Snapshot, now: int): int { f.freshnessAgeMs + f.rttMs + Elapsed(f, now) }

  function UncertaintyAt(f: Snapshot, now: int): int {
    f.uncertaintyMs + TruncDiv(f.driftPpm * AgeAt(f, now), 1_000_000)
  }

  function RemainingAt(f: Snapshot, now: int): int { f.remainingValidityMs - f.rttMs - Elapsed(f, now) }

  function UtcAt(f: Snapshot, now: int): int { f.utcEpochMs + AgeAt(f, now) }

  function LeaseAt(f: Snapshot, cfg: Config, now: int): int {
    Max(0, Min(cfg.leaseMaxMs, Min(RemainingAt(f, now),
      Min(cfg.maxFreshnessMs - AgeAt(f, now), cfg.maxUncertaintyMs - UncertaintyAt(f, now)))))
  }

  function Refuse(r: Result, trust: Trust, reason: Reason): Result {
    r.(sample := r.sample.(trust := trust, reason := reason))
  }

  /** The instant below the rollback tolerance; the millisecond reading of last-known-good
      truncates. */
  predicate RolledBack(lkg: Option<int>, utcMs: int, cfg: Config) {
    lkg.Some? && utcMs < TruncDiv(lkg.value, NS_PER_MS) - cfg.rollbackToleranceMs
  }

  function GatePlatform(f: Snapshot, cfg: Config, now: int, lkg: Option<int>): (r: Result) {
    var bare := BLANK_RESULT.(sample := BLANK.(source := PlatformSync));
    if !f.transportOk then Refuse(bare, UnknownTrust, PlatformInterfaceUnavailable)
    else if !f.validated then Refuse(bare, UnknownTrust, PlatformContractIncomplete)
    else
      var out := bare.(contractVersion := f.contractVersion, daemonEpoch := f.daemonEpoch, sourceId := f.sourceId,
                       aligned := f.aligned, sample := bare.sample.(sourceEpoch := f.sourceEpoch));
      if f.state != Synced then Refuse(out, Untrusted, PlatformNotSynchronized)
      else if !ContractComplete(f) then Refuse(out, UnknownTrust, PlatformContractIncomplete)
      else
        var full := out.(contractComplete := true);
        if f.auth == Unverified || f.auth == AuthFailed then Refuse(full, Untrusted, PlatformNotAuthenticated)
        else if !AuthBound(f, cfg) then Refuse(full, UnknownTrust, PlatformAuthUnverifiable)
        else if !f.utcValid || !f.uncertaintyValid then Refuse(full, UnknownTrust, PlatformContractIncomplete)
        else if AgeAt(f, now) > cfg.maxFreshnessMs then Refuse(full, Untrusted, PlatformTooOld)
        else if UncertaintyAt(f, now) > cfg.maxUncertaintyMs then Refuse(full, Untrusted, PlatformUncertaintyTooHigh)
        else if RolledBack(lkg, UtcAt(f, now), cfg) then Refuse(full, Untrusted, PlatformRollbackDetected)
        else if LeaseAt(f, cfg, now) <= 0 then Refuse(full, Untrusted, PlatformValidityExpired)
        else
          full.(sample := Sample(UtcAt(f, now) * NS_PER_MS, Trusted, PlatformSync, AgeAt(f, now),
                                 UncertaintyAt(f, now), PlatformSynced, f.sourceEpoch),
                remainingMs := LeaseAt(f, cfg, now))
  }

  // ---- the RTC gate, the choice between the two, last-known-good ----

  function GateRtc(s: Sample, cfg: Config, lkg: Option<int>): (r: Result) {
    var out := BLANK_RESULT.(sample := s);
    if s.trust != Trusted then out
    else if s.source != HardwareRtc then Refuse(out, Untrusted, PlatformMalformed)
    else if cfg.rtcRequireProvisioned && s.reason != RtcProvisioned then Refuse(out, Untrusted, RtcNotProvisioned)
    else if s.uncertaintyMs > cfg.maxUncertaintyMs then Refuse(out, Untrusted, RtcNotHealthy)
    else if lkg.Some? && s.utcNs < lkg.value - cfg.rollbackToleranceMs * NS_PER_MS
    then Refuse(out, Untrusted, RtcRollbackDetected)
    else
      var lease := Max(0, Min(cfg.leaseMaxMs, cfg.maxUncertaintyMs - s.uncertaintyMs));
      if lease <= 0 then Refuse(out, Untrusted, RtcNotHealthy) else out.(remainingMs := lease)
  }

  function Specificity(r: Reason): nat {
    match r
    case NoSourceAvailable => 0
    case PlatformInterfaceUnavailable | RtcInterfaceUnavailable => 1
    case _ => 2
  }

  predicate MoreSpecific(a: Reason, b: Reason) { Specificity(a) > Specificity(b) }

  function AcceptAsKnownGood(lkg: Option<int>, s: Sample): Option<int> {
    if lkg.None? || s.utcNs > lkg.value then Some(s.utcNs) else lkg
  }

  /** What one query reads: the platform snapshot, the RTC sample and the boot clock. */
  datatype Reading = Reading(platform: Snapshot, rtc: Sample, now: int)

  function NothingAvailable(): Result {
    Refuse(BLANK_RESULT, Untrusted, NoSourceAvailable)
  }

  function Choose(rd: Reading, cfg: Config, lkg: Option<int>): (r: (Result, Option<int>)) {
    var p := if cfg.platformEnabled then GatePlatform(rd.platform, cfg, rd.now, lkg) else NothingAvailable();
    if p.sample.trust == Trusted then (p, AcceptAsKnownGood(lkg, p.sample))
    else if !cfg.rtcEnabled then (p, lkg)
    else
      var g := GateRtc(rd.rtc, cfg, lkg);
      if g.sample.trust == Trusted then (g, AcceptAsKnownGood(lkg, g.sample))
      else if MoreSpecific(g.sample.reason, p.sample.reason) then (g, lkg)
      else (p, lkg)
  }

  class CompositeTrustedTimeProvider {
    const cfg: Config
    var lastKnownGood: int
    var hasLkg: bool

    ghost function Lkg(): Option<int>
      reads this
    {
      if hasLkg then Some(lastKnownGood) else None
    }

    constructor (cfg: Config)
      ensures this.cfg == cfg && Lkg() == None
    {
      this.cfg, lastKnownGood, hasLkg := cfg, 0, false;
    }

    method CheckPlatform(f: Snapshot, now: int) returns (out: Result)
      ensures out == GatePlatform(f, cfg, now, Lkg())
    {
      out := BLANK_RESULT.(sample := BLANK.(source := PlatformSync));
      if !f.transportOk { return Refuse(out, UnknownTrust, PlatformInterfaceUnavailable); }
      if !f.validated { return Refuse(out, UnknownTrust, PlatformContractIncomplete); }
      out := out.(contractVersion := f.contractVersion, daemonEpoch := f.daemonEpoch, sourceId := f.sourceId,
                  aligned := f.aligned, sample := out.sample.(sourceEpoch := f.sourceEpoch));
      if f.state != Synced { return Refuse(out, Untrusted, PlatformNotSynchronized); }
      if !ContractComplete(f) { return Refuse(out, UnknownTrust, PlatformContractIncomplete); }
      out := out.(contractComplete := true);
      if f.auth == Unverified || f.auth == AuthFailed { return Refuse(out, Untrusted, PlatformNotAuthenticated); }
      if !AuthBound(f, cfg) { return Refuse(out, UnknownTrust, PlatformAuthUnverifiable); }
      if !f.utcValid || !f.uncertaintyValid { return Refuse(out, UnknownTrust, PlatformContractIncomplete); }
      var elapsed := Max(0, now - f.receivedBootMs);
      var age := f.freshnessAgeMs + f.rttMs + elapsed;
      var u := f.uncertaintyMs + TruncDiv(f.driftPpm * age, 1_000_000);
      var remain := f.remainingValidityMs - f.rttMs - elapsed;
      var utc := f.utcEpochMs + age;
      if age > cfg.maxFreshnessMs { return Refuse(out, Untrusted, PlatformTooOld); }
      if u > cfg.maxUncertaintyMs { return Refuse(out, Untrusted, PlatformUncertaintyTooHigh); }
      if hasLkg && utc < TruncDiv(lastKnownGood, NS_PER_MS) - cfg.rollbackToleranceMs {
        return Refuse(out, Untrusted, PlatformRollbackDetected);
      }
      var lease := Max(0, Min(cfg.leaseMaxMs, Min(remain, Min(cfg.maxFreshnessMs - age, cfg.maxUncertaintyMs - u))));
      if lease <= 0 { return Refuse(out, Untrusted, PlatformValidityExpired); }
      out := out.(sample := Sample(utc * NS_PER_MS, Trusted, PlatformSync, age, u, PlatformSynced, f.sourceEpoch),
                  remainingMs := lease);
    }

    method CheckRtc(s: Sample) returns (out: Result)
      ensures out == GateRtc(s, cfg, Lkg())
    {
      out := BLANK_RESULT.(sample := s);
      if s.trust != Trusted { return; }
      if s.source != HardwareRtc { return Refuse(out, Untrusted, PlatformMalformed); }
      if cfg.rtcRequireProvisioned && s.reason != RtcProvisioned { return Refuse(out, Untrusted, RtcNotProvisioned); }
      if s.uncertaintyMs > cfg.maxUncertaintyMs { return Refuse(out, Untrusted, RtcNotHealthy); }
      if hasLkg && s.utcNs < lastKnownGood - cfg.rollbackToleranceMs * NS_PER_MS {
        return Refuse(out, Untrusted, RtcRollbackDetected);
      }
      var lease := Max(0, Min(cfg.leaseMaxMs, cfg.maxUncertaintyMs - s.uncertaintyMs));
      if lease <= 0 { return Refuse(out, Untrusted, RtcNotHealthy); }
      out := out.(remainingMs := lease);
    }

    method Accept(s: Sample)
      modifies this
      ensures Lkg() == AcceptAsKnownGood(old(Lkg()), s)
    {
      if !hasLkg || s.utcNs > lastKnownGood { lastKnownGood := s.utcNs; }
      hasLkg := true;
    }

    method Query(rd: Reading) returns (r: Result)
      modifies this
      ensures (r, Lkg()) == Choose(rd, cfg, old(Lkg()))
    {
      r := NothingAvailable();
      if cfg.platformEnabled {
        r := CheckPlatform(rd.platform, rd.now);
        if r.sample.trust == Trusted {
          Accept(r.sample);
          return;
        }
      }
      if cfg.rtcEnabled {
        var g := CheckRtc(rd.rtc);
        if g.sample.trust == Trusted {
          Accept(g.sample);
          return g;
        }
        if MoreSpecific(g.sample.reason, r.sample.reason) { r := g; }
      }
    }
  }
}
