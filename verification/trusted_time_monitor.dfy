/** The monitor: it keeps the last answer of a query, takes the passing time off its lease,
    and raises an event when the facts change. */
module TrustedTimeMonitor {
  import opened Wrappers
  import opened TrustedTime
  import opened TrustedTimeTheorems

  // ---- the cached lease stands in for the gate ----

  lemma TruncDivShift(a: int, b: int, k: nat)
    requires b <= a + k * 1_000_000
    ensures TruncDiv(b, 1_000_000) <= TruncDiv(a, 1_000_000) + k
  {
  }

  /** The clock of the gate moved by at most `later - now`; so did everything it ages. */
  lemma GateAges(f: Snapshot, now: int, later: int)
    requires now <= later && 0 <= f.driftPpm <= 1_000_000
    ensures var d := Elapsed(f, later) - Elapsed(f, now);
            && 0 <= d <= later - now
            && AgeAt(f, later) == AgeAt(f, now) + d && UtcAt(f, later) == UtcAt(f, now) + d
            && RemainingAt(f, later) == RemainingAt(f, now) - d
            && UncertaintyAt(f, later) <= UncertaintyAt(f, now) + d
  {
    var d := Elapsed(f, later) - Elapsed(f, now);
    assert f.driftPpm * AgeAt(f, later) == f.driftPpm * AgeAt(f, now) + f.driftPpm * d;
    assert f.driftPpm * d <= 1_000_000 * d;
    TruncDivShift(f.driftPpm * AgeAt(f, now), f.driftPpm * AgeAt(f, later), d);
  }

  /** While a platform grant made at `now` has `later - now` to spare, running the gate again
      on the same snapshot at `later`, with last-known-good as the grant left it, grants too,
      and its lease is at least what is left of the first one. */
  lemma LeaseStandsInForGate(f: Snapshot, cfg: Config, now: int, later: int, lkg: Option<int>)
    requires now <= later && f.driftPpm <= 1_000_000 && cfg.rollbackToleranceMs >= 0
    requires GatePlatform(f, cfg, now, lkg).sample.trust == Trusted
    requires GatePlatform(f, cfg, now, lkg).remainingMs > later - now
    ensures var again := GatePlatform(f, cfg, later, AcceptAsKnownGood(lkg, GatePlatform(f, cfg, now, lkg).sample));
            again.sample.trust == Trusted
            && again.remainingMs >= GatePlatform(f, cfg, now, lkg).remainingMs - (later - now)
  {
    var first := GatePlatform(f, cfg, now, lkg);
    var next := AcceptAsKnownGood(lkg, first.sample);
    GateGrantsExactly(f, cfg, now, lkg);
    GateAges(f, now, later);
    GuardMoves(f, cfg, now, later, lkg);
    GateGrantsExactly(f, cfg, later, next);
    hide GatePlatform, ContractComplete, AuthBound, AgeAt, UtcAt, RemainingAt, UncertaintyAt;
  }

  lemma GuardMoves(f: Snapshot, cfg: Config, now: int, later: int, lkg: Option<int>)
    requires UtcAt(f, now) <= UtcAt(f, later) && cfg.rollbackToleranceMs >= 0
    requires !RolledBack(lkg, UtcAt(f, now), cfg)
    ensures forall s: Sample :: s.utcNs == UtcAt(f, now) * NS_PER_MS ==>
              !RolledBack(AcceptAsKnownGood(lkg, s), UtcAt(f, later), cfg)
  {
  }

  // ---- the facts an event is raised for ----

  predicate FactChanged(a: Result, b: Result) {
    || a.sample.trust != b.sample.trust
    || a.sample.source != b.sample.source
    || a.sourceId != b.sourceId
    || a.sample.sourceEpoch != b.sample.sourceEpoch
    || a.daemonEpoch != b.daemonEpoch
    || a.aligned != b.aligned
    || a.contractVersion != b.contractVersion
    || a.sample.reason != b.sample.reason
  }

  /** What is left of the lease of `cached` at `now`. */
  function AgedAt(cached: Result, refreshedAt: int, now: int): Result {
    if cached.sample.trust != Trusted then cached
    else
      var left := cached.remainingMs - Max(0, now - refreshedAt);
      if left <= 0 then cached.(sample := cached.sample.(trust := Untrusted, reason := TimeExpired), remainingMs := 0)
      else cached.(remainingMs := left)
  }

  class TrustedTimeMonitor {
    const provider: CompositeTrustedTimeProvider
    const secEpoch: nat
    var cached: Option<Result>
    var lastRefreshBootMs: int
    var lastPublished: Option<Result>
    var sequence: nat
    var tokensInvalidated: bool
    /** What the cached answer was made from. */
    ghost var reading: Reading
    ghost var guard: Option<int>

    /** The cached answer, while trusted, is the answer of the gates to `reading`, read no
        earlier than the refresh; the last event agrees with the cached facts. */
    ghost predicate Valid()
      reads this
    {
      && (cached.Some? && cached.value.sample.trust == Trusted ==>
            lastRefreshBootMs <= reading.now
            && SameGrant(cached.value, Choose(reading, provider.cfg, guard).0))
      && (cached.Some? ==> lastPublished.Some? && !FactChanged(lastPublished.value, cached.value))
    }

    /** A trusted platform answer over a drift bound below one second per second. */
    ghost predicate Replayable(r: Result)
      reads this
    {
      && r.sample.trust == Trusted && r.sample.source == PlatformSync
      && reading.platform.driftPpm <= 1_000_000 && provider.cfg.rollbackToleranceMs >= 0
    }

    /** A trusted answer is cached whose lease is not longer than the time since the refresh. */
    ghost predicate LeaseOver(now: int)
      reads this
    {
      cached.Some? && cached.value.sample.trust == Trusted && cached.value.remainingMs <= now - lastRefreshBootMs
    }

    constructor (provider: CompositeTrustedTimeProvider, secEpoch: nat)
      ensures Valid() && this.provider == provider && this.secEpoch == secEpoch
      ensures cached == None && lastPublished == None && sequence == 0 && !tokensInvalidated
    {
      this.provider, this.secEpoch := provider, secEpoch;
      cached, lastRefreshBootMs, lastPublished, sequence, tokensInvalidated := None, 0, None, 0, false;
    }

    /** An event exactly when there was none before or a fact differs from the last one. */
    method PublishIfChanged(r: Result)
      modifies this`sequence, this`lastPublished
      ensures var changed := old(lastPublished).None? || FactChanged(old(lastPublished).value, r);
              && sequence == (if changed then old(sequence) + 1 else old(sequence))
              && lastPublished == (if changed then Some(r.(sequence := sequence)) else old(lastPublished))
    {
      if lastPublished.Some? && !FactChanged(lastPublished.value, r) { return; }
      sequence := sequence + 1;
      lastPublished := Some(r.(sequence := sequence));
    }

    /** Ask the sources; the boot clock is read once before (`now`) and once in the gate. */
    method Refresh(now: int, rd: Reading)
      requires Valid() && now <= rd.now
      modifies this, provider
      ensures Valid() && cached.Some? && lastRefreshBootMs == now && tokensInvalidated == old(tokensInvalidated)
      ensures reading == rd && guard == old(provider.Lkg())
      ensures (cached.value.(secEpoch := 0, sequence := 0), provider.Lkg()) == (
                var (a, lkg) := Choose(rd, provider.cfg, old(provider.Lkg())); (a.(secEpoch := 0, sequence := 0), lkg))
      ensures sequence == old(sequence) || (sequence == old(sequence) + 1 &&
                (old(lastPublished).None? || FactChanged(old(lastPublished).value, cached.value)))
    {
      hide Choose;
      ghost var before := provider.Lkg();
      var r := provider.Query(rd);
      r := r.(secEpoch := secEpoch, sequence := sequence);
      TrustedMeansLease(rd, provider.cfg, before);
      if r.sample.trust == Trusted && r.remainingMs <= 0 {
        r := Refuse(r, Untrusted, PlatformValidityExpired).(remainingMs := 0);
      }
      cached, lastRefreshBootMs := Some(r), now;
      reading, guard := rd, before;
      PublishIfChanged(r);
    }

    /** Take the cached grant back. */
    method Revoke(now: int, reason: Reason)
      requires Valid()
      modifies this
      ensures Valid() && cached.Some? && cached.value.sample.trust == Untrusted && cached.value.remainingMs == 0
      ensures cached.value.sample.reason == reason && lastRefreshBootMs == now
      ensures reading == old(reading) && guard == old(guard) && tokensInvalidated == old(tokensInvalidated)
      ensures lastPublished.Some? && !FactChanged(lastPublished.value, cached.value)
      ensures old(cached).Some? && old(cached).value.sample.trust == Trusted ==> sequence == old(sequence) + 1
    {
      var was := if cached.Some? then cached.value else BLANK_RESULT;
      var r := Refuse(was, Untrusted, reason).(remainingMs := 0, secEpoch := secEpoch, sequence := sequence);
      cached, lastRefreshBootMs := Some(r), now;
      PublishIfChanged(r);
    }

    /** One turn of the monitor loop at `now`: refresh when due, otherwise revoke a grant
        whose lease is over. After it no lease in the cache is over. */
    method Tick(now: int, due: bool, rd: Reading)
      requires Valid() && now <= rd.now
      modifies this, provider
      ensures Valid()
      ensures tokensInvalidated == old(tokensInvalidated)
      ensures due ==> cached.Some? && lastRefreshBootMs == now && reading == rd && guard == old(provider.Lkg())
      ensures due ==>
        cached.value.(secEpoch := 0, sequence := 0)
        == Choose(rd, provider.cfg, old(provider.Lkg())).0.(secEpoch := 0, sequence := 0)
      ensures !due && !old(LeaseOver(now)) ==>
        cached == old(cached) && lastRefreshBootMs == old(lastRefreshBootMs) && sequence == old(sequence)
        && lastPublished == old(lastPublished) && provider.Lkg() == old(provider.Lkg())
      ensures !due && old(LeaseOver(now)) ==>
        cached.Some? && cached.value.sample.trust == Untrusted && cached.value.sample.reason == TimeExpired
        && cached.value.remainingMs == 0 && sequence == old(sequence) + 1 && provider.Lkg() == old(provider.Lkg())
      ensures cached.Some? && cached.value.sample.trust == Trusted ==>
        cached.value.remainingMs > now - lastRefreshBootMs
    {
      if due {
        Refresh(now, rd);
        TrustedMeansLease(rd, provider.cfg, guard);
      } else if cached.Some? && cached.value.sample.trust == Trusted
                && now - lastRefreshBootMs >= cached.value.remainingMs {
        Revoke(now, TimeExpired);
      }
    }

    /** A trusted answer from the platform with `r` left is one the gate would give again
        right now, for at least as long, on the same snapshot and with last-known-good as the
        cached grant left it. */
    method Get(token: nat, now: int, refreshAt: int, rd: Reading) returns (r: Result)
      requires Valid() && refreshAt <= rd.now <= now
      modifies this, provider
      ensures Valid()
      ensures token != 0 && (token != secEpoch || old(tokensInvalidated)) ==>
                r.stale && r.sample.trust != Trusted && cached == old(cached)
      ensures token == 0 || (token == secEpoch && !old(tokensInvalidated)) ==>
                cached.Some? && r == AgedAt(cached.value, lastRefreshBootMs, now)
                && (old(cached).Some? ==> cached == old(cached) && lastRefreshBootMs == old(lastRefreshBootMs))
                && (old(cached).None? ==> lastRefreshBootMs == refreshAt && reading == rd)
      ensures Replayable(r) && reading.now <= now ==> (
                var again := GatePlatform(reading.platform, provider.cfg, now,
                  Choose(reading, provider.cfg, guard).1);
                again.sample.trust == Trusted && again.remainingMs >= r.remainingMs > 0)
    {
      if token != 0 && (token != secEpoch || tokensInvalidated) {
        return Refuse(BLANK_RESULT, UnknownTrust, PlatformMalformed).(secEpoch := secEpoch, stale := true);
      }
      if cached.None? { Refresh(refreshAt, rd); }
      r := AgedAt(cached.value, lastRefreshBootMs, now);
      if Replayable(r) && reading.now <= now {
        CachedLeaseHolds(reading, provider.cfg, guard, lastRefreshBootMs, now);
      }
    }

    /** Shutting down drops the cache and every token handed out. */
    method Stop()
      requires Valid()
      modifies this
      ensures Valid() && cached == None && tokensInvalidated
    {
      cached, tokensInvalidated := None, true;
    }
  }

  ghost predicate SameGrant(a: Result, b: Result) {
    a.sample == b.sample && a.remainingMs == b.remainingMs
  }

  lemma TrustedMeansLease(rd: Reading, cfg: Config, lkg: Option<int>)
    ensures var a := Choose(rd, cfg, lkg).0; a.sample.trust == Trusted ==> a.remainingMs > 0
  {
    GateGrantsExactly(rd.platform, cfg, rd.now, lkg);
    hide GatePlatform;
  }

  lemma CachedLeaseHolds(rd: Reading, cfg: Config, lkg: Option<int>, refreshedAt: int, now: int)
    requires refreshedAt <= rd.now <= now && rd.platform.driftPpm <= 1_000_000 && cfg.rollbackToleranceMs >= 0
    requires var a := Choose(rd, cfg, lkg).0;
             a.sample.trust == Trusted && a.sample.source == PlatformSync && a.remainingMs > now - refreshedAt
    ensures var (a, next) := Choose(rd, cfg, lkg);
            var again := GatePlatform(rd.platform, cfg, now, next);
            again.sample.trust == Trusted && again.remainingMs >= a.remainingMs - (now - refreshedAt)
  {
    PlatformChosen(rd, cfg, lkg);
    hide GatePlatform, Choose;
    LeaseStandsInForGate(rd.platform, cfg, rd.now, now, lkg);
  }

  lemma PlatformChosen(rd: Reading, cfg: Config, lkg: Option<int>)
    requires var a := Choose(rd, cfg, lkg).0; a.sample.trust == Trusted && a.sample.source == PlatformSync
    ensures var g := GatePlatform(rd.platform, cfg, rd.now, lkg);
            g.sample.trust == Trusted && Choose(rd, cfg, lkg) == (g, AcceptAsKnownGood(lkg, g.sample))
  {
    hide GatePlatform;
  }
}
