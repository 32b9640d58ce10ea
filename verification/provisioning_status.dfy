/** What a restart makes of status queries. The ledger is saved apart from the journal, and a
    start-up repairs it only for entries that are still open. */
module ProvisioningStatus {
  import opened Wrappers
  import opened ProviderState
  import opened Provisioning
  import opened ProvisioningInvariants
  import opened ProvisioningCalls
  import opened ProvisioningRecovery
  import opened ProvisioningRuns
  import opened ProvisioningTheorems
  import opened ProvisioningVerdicts
  import opened ProvisioningProgress
  import opened ProvisioningLedger

  /** Recovering one open entry makes the rows those of the last commit exactly when it is that
      commit's, and otherwise leaves them. */
  lemma RecoverRow(s: State, r: Rid, now: int, p: Purpose)
    requires Inv(s) && TruthfulState(s) && r in s.mem.journal && !Terminal(s.mem.journal[r].phase) && p in REQUIRED
    ensures var t := RecoverEntry(s, s.mem.journal[r], now).0;
            RowOfLastCommit(t, p) <==> RowOfLastCommit(s, p) || IsLast(s.commits, r)
  {
    hide Inv, TruthfulState, RecoverEntry, Credited, NothingCredited, VerdictRight, RowOfLastCommit, SameRequest;
    var (t, e1) := RecoverEntry(s, s.mem.journal[r], now);
    RecoverKeeps(s, r, now);
    RecoverTruthful(s, r, now);
    RecoverCredits(s, r, now);
    LastGeneration(s);
    if Credited(s, t, r) {
      OnlyLastIsCredited(s, t, r);
    } else {
      NothingClosed(s, t, r, e1);
      SameRow(s, t, p);
      if IsLast(s.commits, r) { LastIsAtGeneration(s, r); }
    }
  }

  lemma NothingClosed(s: State, t: State, r: Rid, e1: Entry)
    requires NothingCredited(s, t) && Settles(s, t, r, e1) && !Terminal(s.mem.journal[r].phase)
    ensures e1.phase != Succeeded && SameLedger(s, t) && t.commits == s.commits
  {
    assert t.mem.journal[r] == e1;
  }

  lemma SameRow(s: State, t: State, p: Purpose)
    requires SameLedger(s, t) && t.commits == s.commits
    ensures RowOfLastCommit(t, p) <==> RowOfLastCommit(s, p)
  {
  }

  lemma LastIsAtGeneration(s: State, r: Rid)
    requires Inv(s) && IsLast(s.commits, r)
    ensures r in s.mem.journal && s.mem.journal[r].generation == |s.commits|
    ensures r in s.disk.journal && s.disk.journal[r].generation == |s.commits|
  {
    hide CommitsGood, Lags, StagingGood, ActiveGood, ItemsMatch;
  }

  lemma RecoverAllRow(s: State, listed: map<Rid, Entry>, rids: seq<Rid>, clock: seq<int>, p: Purpose)
    requires Inv(s) && |clock| == |rids| && TruthfulState(s) && p in REQUIRED
    requires forall i, j :: 0 <= i < j < |rids| ==> rids[i] != rids[j]
    requires forall r :: r in rids ==> r in listed && r in s.mem.journal && s.mem.journal[r] == listed[r]
    ensures RowOfLastCommit(RecoverAll(s, listed, rids, clock), p) <==>
            RowOfLastCommit(s, p) || exists r :: r in rids && IsLast(s.commits, r) && !Terminal(listed[r].phase)
    decreases |rids|
  {
    hide Inv, RecoverEntry, Settled, TruthfulState, VerdictRight, RowOfLastCommit, IsLast;
    if rids != [] {
      var r := rids[0];
      var s1 := if Terminal(listed[r].phase) then s else RecoverEntry(s, listed[r], clock[0]).0;
      RecoverNext(s, s1, r, clock[0]);
      if !Terminal(listed[r].phase) {
        RecoverTruthful(s, r, clock[0]);
        RecoverRow(s, r, clock[0], p);
      }
      assert forall q :: q in rids[1..] ==> q in rids && q != r;
      assert forall q :: q in rids ==> q == r || q in rids[1..];
      RecoverAllRow(s1, listed, rids[1..], clock[1..], p);
    }
  }

  /** After a restart the status is ACTIVE exactly when the last committed request was still open
      on the disk, so that recovery writes its rows, or the ledger's disk has its row. */
  lemma RestartStatusExactly(s: State, script: seq<SaveOutcome>, rids: seq<Rid>, clock: seq<int>, p: Purpose)
    requires Inv(s) && TruthfulState(s) && LedgerTrue(s) && p in REQUIRED
    requires |clock| == |rids| && Enumerates(rids, s.disk.journal.Keys)
    ensures StatusOf(Restart(s, script, rids, clock), p) == ActiveKey <==>
      || (exists r :: r in s.disk.journal && IsLast(s.commits, r) && !Terminal(s.disk.journal[r].phase))
      || (p in s.ledgerDisk && IsLast(s.commits, s.ledgerDisk[p].rid))
    ensures StatusOf(Restart(s, script, rids, clock), p) == Missing <==> s.commits == []
  {
    hide Inv, RecoverAll, Truthful, RowsTrue, IsLast, Settled;
    var s1 := PowerOn(s, script);
    var t := Restart(s, script, rids, clock);
    PowerOnKeeps(s, script);
    RecoverAllRow(s1, s.disk.journal, rids, clock, p);
    RecoverAllTrue(s1, s.disk.journal, rids, clock);
    RecoverAllKeeps(s1, s.disk.journal, rids, clock);
    StatusExactly(t, p);
  }

  /** A batch is committed, a proof is missing: the request stays open and no row is written. */
  lemma UnprovenStaysOpen(s: State, req: Request, env: Env)
    requires Inv(s) && Healthy(s) && Shaped(req, env) && RidOf(req.requestId) !in s.mem.journal
    requires PreCheck(req, env) == Success && ValidateVersionAndTime(s.mem, req.items, env.validation) == Success
    requires Opens(req, env) && !Sound(req, env)
    ensures var t := Import(s, req, env).0;
            var rid := RidOf(req.requestId);
            && Inv(t) && t.alive && SameLedger(s, t) && t.commits != s.commits && IsLast(t.commits, rid)
            && rid in t.mem.journal && OpenEntryOf(t.mem.journal[rid], req)
            && t.mem.journal[rid].generation == |t.commits|
  {
    Admission(s, req, env);
    AdmittedFacts(s, req);
    AdmittedShape(s, req);
    HealthyPipeline(s, req, env, NowMs(env.start));
    PipelineKeeps(s, req, env, NowMs(env.start));
    PipelineRows(s, req, env, s.mem.generation + 1, NowMs(env.start));
    var e := NewEntry(req, s.mem.generation + 1, NowMs(env.start));
    var (t, o) := RunPipeline(s, req, env, s.mem.generation + 1, NowMs(env.start));
    hide Inv, RunPipeline, PreCheck, ValidateVersionAndTime, BatchOf, Admitted, WellFormed, RowsWritten, Opens;
    UnprovenEntry(s, t, e, o, req, env, NowMs(env.start));
  }

  lemma UnprovenEntry(s: State, t: State, e: Entry, o: Outcome, req: Request, env: Env, now: int)
    requires Shaped(req, env) && |req.items| == 2 && e == NewEntry(req, |s.commits| + 1, now)
    requires Lost(s, t, e, o) || Won(s, t, e, o, t.mem.active)
    requires t.commits != s.commits && o.code != Success
    ensures e.rid in t.mem.journal && OpenEntryOf(t.mem.journal[e.rid], req) && IsLast(t.commits, e.rid)
    ensures t.mem.journal[e.rid].generation == |t.commits| && Inv(t)
  {
    hide Inv;
    assert |Acks(t.mem.journal[e.rid].items)| == |Acks(e.items)|;
  }

  /** Open, with the request's digest and as many items. */
  ghost predicate OpenEntryOf(e: Entry, req: Request) {
    !Terminal(e.phase) && e.requestDigest == req.digest && |e.items| == |req.items| == 2
  }

  /** Recovery credits the last committed entry, its journal write lands, and both saves of the
      ledger are refused: the ledger's disk is as before. */
  lemma CreditWithoutLedger(s: State, e: Entry, now: int)
    requires s.alive && s.script == [Saved, Refused, Refused] && |e.items| == 2
    requires BothActiveAt(s.mem, e.generation)
    ensures var (t, e1) := RecoverEntry(s, e, now);
            && e1 == e.(phase := Succeeded, committedAt := now, items := AllActive(e.items))
            && t.alive && t.ledgerDisk == s.ledgerDisk && t.disk.journal == s.mem.journal[e.rid := e1]
  {
    hide BothActiveAt;
    var e1 := e.(phase := Succeeded, committedAt := now, items := AllActive(e.items));
    var s1 := SaveJournal(s, e1).0;
    assert s1.script == [Refused, Refused] && s1.alive;
    var s2 := LedgerPut(s1, e1.items[0].purpose, RowOf(e1, 0, e1.generation));
    assert s2.script == [Refused] && s2.alive;
    var s3 := LedgerPut(s2, e1.items[1].purpose, RowOf(e1, 1, e1.generation));
    assert s3.alive && s3.ledgerDisk == s.ledgerDisk;
    assert UpdateLedger(s3, e1, e1.generation, 2) == s3;
    assert UpdateLedger(s2, e1, e1.generation, 1) == s3;
  }

  lemma ReplayCreditsWithoutLedger(s: State, req: Request, env: Env)
    requires Inv(s) && s.alive && Shaped(req, env) && PreCheck(req, env) == Success
    requires var rid := RidOf(req.requestId);
             rid in s.mem.journal && OpenEntryOf(s.mem.journal[rid], req)
             && s.mem.journal[rid].generation == |s.commits|
    ensures var (t, o) := Take(s, DoImport(req, env, [Saved, Refused, Refused]));
            var rid := RidOf(req.requestId);
            && o.code == Success && o.state == Committed && t.alive && t.commits == s.commits
            && t.ledgerDisk == s.ledgerDisk && rid in t.disk.journal && t.disk.journal[rid].phase == Succeeded
  {
    hide Inv, RecoverEntry, PreCheck, BothActiveAt, SameRequest, AllActive, Progressed;
    var rid := RidOf(req.requestId);
    var s1 := s.(script := [Saved, Refused, Refused]);
    var e := s.mem.journal[rid];
    ScriptIrrelevant(s, [Saved, Refused, Refused]);
    LastGeneration(s1);
    EntryNamed(s1, rid);
    BothActiveIsGeneration(s1.mem, s1.commits, e.generation);
    CreditWithoutLedger(s1, e, NowMs(env.recovery));
    RecoverKeeps(s1, rid, NowMs(env.recovery));
  }

  lemma EntryNamed(s: State, r: Rid)
    requires Inv(s) && r in s.mem.journal
    ensures s.mem.journal[r].rid == r && s.mem.journal[r].generation >= 1
    ensures CommitsGood(s.commits) && ActiveGood(s.mem, s.commits)
  {
  }

  function UnprovenEnv(): Env { SampleEnv().(proofs := [None, None]) }

  lemma UnprovenPasses(requestId: string)
    requires 1 <= |requestId| <= 128
    ensures var (req, env) := (SampleRequest(requestId), UnprovenEnv());
            && Shaped(req, env) && PreCheck(req, env) == Success
            && ValidateVersionAndTime(EMPTY_IMAGE, req.items, env.validation) == Success
            && Opens(req, env) && !ProvisioningProgress.Sound(req, env)
  {
    SamplePasses(requestId);
    hide UnwrapCode, ValidateStructure, ValidateVersionAndTime;
  }

  /** The first two of three calls of one request: the proof is missing, then a replay is
      answered SUCCESS while the ledger cannot be saved. */
  ghost predicate Acknowledged(t: State, o: Outcome, rid: Rid) {
    && Inv(t) && TruthfulState(t) && LedgerTrue(t) && t.alive && o.code == Success && o.state == Committed
    && IsLast(t.commits, rid) && rid in t.disk.journal && t.disk.journal[rid].phase == Succeeded
    && t.ledgerDisk == map[]
  }

  lemma AcknowledgedIsReached(requestId: string)
    requires 1 <= |requestId| <= 128
    ensures var req := SampleRequest(requestId);
            Shaped(req, UnprovenEnv()) && Shaped(req, SampleEnv()) &&
            var first := Take(INITIAL, DoImport(req, UnprovenEnv(), [])).0;
            first.alive &&
            var (second, o) := Take(first, DoImport(req, SampleEnv(), [Saved, Refused, Refused]));
            Acknowledged(second, o, RidOf(requestId))
  {
    hide Inv, Import, PreCheck, ValidateVersionAndTime, SampleEnv, UnprovenEnv, SampleRequest, LedgerTrue,
         TruthfulState, Progressed, SameRequest, Opens;
    var req := SampleRequest(requestId);
    SampleId(requestId);
    InitialGood();
    InitialTrue();
    UnprovenPasses(requestId);
    SamplePasses(requestId);
    UnprovenStaysOpen(INITIAL, req, UnprovenEnv());
    var step1, step2 := DoImport(req, UnprovenEnv(), []), DoImport(req, SampleEnv(), [Saved, Refused, Refused]);
    assert INITIAL.(script := []) == INITIAL;
    var first := Take(INITIAL, step1).0;
    assert OthersClosed(INITIAL.mem, RidOf(requestId));
    StepTruthful(INITIAL, step1);
    StepTrue(INITIAL, step1);
    ReplayCreditsWithoutLedger(first, req, SampleEnv());
    StepKeeps(first, step2);
    StepTruthful(first, step2);
    StepTrue(first, step2);
  }

  lemma SampleId(requestId: string)
    ensures SampleRequest(requestId).requestId == requestId
  {
  }

  /** A committed and acknowledged key can read INVALID: after the two calls, whatever happens to
      the saves of the next start-up, both status queries answer INVALID although both slots are
      active and the result query still answers COMMITTED. */
  lemma AcknowledgedKeyReadsInvalid(
    requestId: string, script: seq<SaveOutcome>, rids: seq<Rid>, clock: seq<int>, p: Purpose)
    requires 1 <= |requestId| <= 128 && p in REQUIRED && |clock| == |rids|
    ensures var req := SampleRequest(requestId);
            Shaped(req, UnprovenEnv()) && Shaped(req, SampleEnv()) &&
            var first := Take(INITIAL, DoImport(req, UnprovenEnv(), [])).0;
            first.alive &&
            var (second, o) := Take(first, DoImport(req, SampleEnv(), [Saved, Refused, Refused]));
            && second.alive && o.code == Success && o.state == Committed
            && (Enabled(second, DoRestart(script, rids, clock)) ==>
                  var t := Take(second, DoRestart(script, rids, clock)).0;
                  StatusOf(t, p) == InvalidKey && QuerySlot(t.mem, p).state == ActiveKey
                  && QueryResult(t, requestId).state == Committed)
  {
    hide Import, Inv, SampleEnv, UnprovenEnv, SampleRequest, LedgerTrue, TruthfulState, Restart, IsLast, Progressed,
         Shaped;
    AcknowledgedIsReached(requestId);
    var req := SampleRequest(requestId);
    var first := Take(INITIAL, DoImport(req, UnprovenEnv(), [])).0;
    var (second, o) := Take(first, DoImport(req, SampleEnv(), [Saved, Refused, Refused]));
    if Enabled(second, DoRestart(script, rids, clock)) { LaggingRestart(second, o, requestId, script, rids, clock, p); }
  }

  lemma LaggingRestart(
    s: State, o: Outcome, requestId: string, script: seq<SaveOutcome>, rids: seq<Rid>, clock: seq<int>, p: Purpose)
    requires Acknowledged(s, o, RidOf(requestId)) && 1 <= |requestId| <= 128 && p in REQUIRED
    requires |clock| == |rids| && Enumerates(rids, s.disk.journal.Keys)
    ensures var t := Restart(s, script, rids, clock);
            StatusOf(t, p) == InvalidKey && QuerySlot(t.mem, p).state == ActiveKey
            && QueryResult(t, requestId).state == Committed
  {
    hide Inv, Restart, LedgerTrue, TruthfulState, SameRequest;
    var rid := RidOf(requestId);
    RestartStatusExactly(s, script, rids, clock, p);
    RestartSettles(s, script, rids, clock);
    var t := Restart(s, script, rids, clock);
    LastSlots(t, p);
    assert Settled(s.disk.journal[rid], t.mem.journal[rid], |s.commits|);
    assert t.mem.journal[rid].phase == Succeeded;
  }

  // ---- what a wrong credit makes of the ledger ----

  /** The three calls of `WrongRequestCredited`. */
  ghost predicate CreditScenario(s: State, a: Request, b: Request, env1: Env, env2: Env, env3: Env) {
    && Inv(s) && s.alive && Shaped(a, env1) && Shaped(b, env2) && Shaped(a, env3)
    && RidOf(a.requestId) !in s.mem.journal && RidOf(b.requestId) !in s.mem.journal && a.requestId != b.requestId
    && PreCheck(a, env1) == Success && PreCheck(b, env2) == Success && PreCheck(a, env3) == Success
    && ValidateVersionAndTime(s.mem, a.items, env1.validation) == Success
    && ValidateVersionAndTime(s.mem, b.items, env2.validation) == Success
    && |a.items| > 0 && UnwrapCode(a.items[0], env1.unwraps[0]) == Success && Sound(b, env2)
  }

  lemma PurposesOnce(req: Request, env: Env, i: nat, j: nat)
    requires PreCheck(req, env) == Success && i < |req.items| && j < |req.items|
    ensures req.items[i].purpose == req.items[j].purpose ==> i == j
    ensures req.items[i].purpose in REQUIRED && req.items[i].algorithm == ALGORITHM && |req.items| == 2
  {
    StructureAccepts(req);
    RequiredItem(req, i);
    assert req.items[i] in req.items;
  }

  /** The row of item `j` of a credited request, in terms of what was asked for. */
  lemma CreditedRow(e: Entry, asked: Entry, req: Request, env: Env, row: LedgerRow, j: nat)
    requires PreCheck(req, env) == Success && Shaped(req, env) && j < |req.items|
    requires SameRequest(e, asked) && asked.items == NewEntry(req, asked.generation, asked.createdAt).items
    requires FromEntry(row, req.items[j].purpose, e)
    ensures row.version == req.items[j].version && row.keyIdDigest == Digest(req.items[j].keyId)
    ensures row.algorithm == ALGORITHM && row.rid == e.rid
  {
    var p := req.items[j].purpose;
    var i :| 0 <= i < |e.items| && e.items[i].purpose == p && row == RowOf(e, i, e.generation);
    assert Acks(e.items)[i] == Acks(asked.items)[i];
    assert |e.items| == |Acks(e.items)| == |req.items|;
    PurposesOnce(req, env, i, j);
  }

  /** An open entry for the whole request `a`, under the last generation. */
  ghost predicate WronglyOpen(s: State, a: Request) {
    var rid := RidOf(a.requestId);
    && rid in s.mem.journal && !Terminal(s.mem.journal[rid].phase) && s.mem.journal[rid].requestDigest == a.digest
    && s.mem.journal[rid].generation == |s.commits| && |a.envelopeDigests| == |a.items|
    && s.mem.journal[rid].items == NewEntry(a, s.mem.journal[rid].generation, s.mem.journal[rid].createdAt).items
  }

  lemma ReplayCredits(s: State, a: Request, env: Env)
    requires Inv(s) && s.alive && Shaped(a, env) && PreCheck(a, env) == Success && WronglyOpen(s, a)
    ensures var t := Take(s, DoImport(a, env, [])).0;
            var rid := RidOf(a.requestId);
            && Inv(t) && t.commits == s.commits && t.mem.active == s.mem.active && Credited(s, t, rid)
            && SameRequest(t.mem.journal[rid], s.mem.journal[rid])
  {
    hide Inv, RecoverEntry, PreCheck, SameRequest, RowsWritten, Progressed;
    var rid := RidOf(a.requestId);
    var s1 := s.(script := []);
    ScriptIrrelevant(s, []);
    LastGeneration(s1);
    RecoverKeeps(s1, rid, NowMs(env.recovery));
    RecoverCredits(s1, rid, NowMs(env.recovery));
    var t := RecoverEntry(s1, s1.mem.journal[rid], NowMs(env.recovery)).0;
    SameActive(s1, t);
    OtherScript(s, s1, t, rid);
  }

  lemma CreditedStatus(s: State, t: State, a: Request, b: Request, env3: Env, env2: Env, j: nat, k: nat)
    requires Inv(t) && Shaped(a, env3) && PreCheck(a, env3) == Success && WronglyOpen(s, a)
    requires Credited(s, t, RidOf(a.requestId))
    requires SameRequest(t.mem.journal[RidOf(a.requestId)], s.mem.journal[RidOf(a.requestId)])
    requires Shaped(b, env2) && PreCheck(b, env2) == Success && BatchOf(t.mem.active, b, env2, |t.commits|)
    requires j < |a.items| && k < |b.items| && a.items[j].purpose == b.items[k].purpose
    ensures StatusOf(t, a.items[j].purpose) == ActiveKey <==>
            a.items[j].version == b.items[k].version && a.items[j].keyId == b.items[k].keyId
    ensures a.items[j].purpose in t.ledger && t.ledger[a.items[j].purpose].rid == RidOf(a.requestId)
  {
    hide Inv, PreCheck, RowsKept, SavedRowsKept, SameRequest, FromEntry, HasPurpose, NewEntry;
    var p := a.items[j].purpose;
    var e, asked := t.mem.journal[RidOf(a.requestId)], s.mem.journal[RidOf(a.requestId)];
    PurposesOnce(a, env3, j, j);
    PurposesOnce(b, env2, k, k);
    AskedPurpose(e, asked, a, j);
    assert HasRow(t.ledger, p, e);
    CreditedRow(e, asked, a, env3, t.ledger[p], j);
    EntryNamed(t, RidOf(a.requestId));
    ActiveUnseals(t, p);
  }

  lemma AskedPurpose(e: Entry, asked: Entry, req: Request, j: nat)
    requires |req.envelopeDigests| == |req.items| && j < |req.items|
    requires SameRequest(e, asked) && asked.items == NewEntry(req, asked.generation, asked.createdAt).items
    ensures HasPurpose(e.items, req.items[j].purpose)
  {
    assert |e.items| == |Acks(e.items)| == |req.items|;
    assert Acks(e.items)[j] == Acks(asked.items)[j];
  }

  lemma ActiveUnseals(t: State, p: Purpose)
    requires Inv(t) && p in t.mem.active
    ensures Unseals(p, t.mem.active[p])
  {
    hide Lags, StagingGood, JournalGood, MarkerOf, Unseals;
    if t.commits != [] { assert GoodSlots(t.commits[|t.commits| - 1].slots, |t.commits|); }
  }

  /** The wrong credit overwrites the rows: after the three calls each row names the request that
      was never committed, and the status for a purpose reads ACTIVE if and only if the two
      requests happen to name the same version and key id for it. */
  lemma WrongCreditStatusExactly(
    s: State, a: Request, b: Request, env1: Env, env2: Env, env3: Env, j: nat, k: nat)
    requires CreditScenario(s, a, b, env1, env2, env3)
    requires j < |a.items| && k < |b.items| && a.items[j].purpose == b.items[k].purpose
    ensures var first := Take(s, DoImport(a, env1, [Saved, Refused])).0;
            first.alive &&
            var second := Take(first, DoImport(b, env2, [])).0;
            second.alive &&
            var third := Take(second, DoImport(a, env3, [])).0;
            var p := a.items[j].purpose;
            && p in third.ledger && third.ledger[p].rid == RidOf(a.requestId)
            && !CommittedBy(third.commits, RidOf(a.requestId))
            && (StatusOf(third, p) == ActiveKey <==>
                  a.items[j].version == b.items[k].version && a.items[j].keyId == b.items[k].keyId)
  {
    hide Inv, PreCheck, Sound, UnwrapCode, BatchOf, Progressed, CommittedBy, Import, ItemsCode, VersionAndTimeFrom,
         NewEntry, Credited, SameRequest, StatusOf;
    WrongRequestCredited(s, a, b, env1, env2, env3);
    var s1 := Take(s, DoImport(a, env1, [Saved, Refused])).0;
    FirstCallStaysOpen(s, a, env1);
    VersionsSeeActiveOnly(s.mem, s1.mem, b.items, env2.validation.utc, 0);
    SecondCallCommits(s1, b, env2);
    var s2 := Take(s1, DoImport(b, env2, [])).0;
    ScriptIrrelevant(s1, []);
    ImportEffect(s1.(script := []), b, env2);
    StillWronglyOpen(s, s1, s2, a, NowMs(env1.start));
    ReplayCredits(s2, a, env3);
    CreditedStatus(s2, Take(s2, DoImport(a, env3, [])).0, a, b, env3, env2, j, k);
  }

  lemma StillWronglyOpen(s: State, s1: State, s2: State, a: Request, now: int)
    requires |a.envelopeDigests| == |a.items| && RidOf(a.requestId) in s1.mem.journal
    requires var e := s1.mem.journal[RidOf(a.requestId)];
             && !Terminal(e.phase) && e.requestDigest == a.digest && e.generation == |s1.commits| + 1
             && e.items == NewEntry(a, s.mem.generation + 1, now).items
    requires RidOf(a.requestId) in s2.mem.journal
    requires s2.mem.journal[RidOf(a.requestId)] == s1.mem.journal[RidOf(a.requestId)]
    requires |s2.commits| == |s1.commits| + 1
    ensures WronglyOpen(s2, a)
  {
  }
}
