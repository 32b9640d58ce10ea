/** What every call answers, said without the functions that compute it: which of the recorded
    facts decide a replay, what a first success and each failure report, and what the result
    query says about each phase. */
module ProvisioningAnswers {
  import opened Wrappers
  import opened ProviderState
  import opened Provisioning
  import opened ProvisioningInvariants
  import opened ProvisioningCalls
  import opened ProvisioningRecovery
  import opened ProvisioningRuns
  import opened ProvisioningTheorems
  import opened ProvisioningVerdicts
  import opened ProvisioningProgress

  // ---- recovery of one entry ----

  /** What recovery makes of an entry: under the last generation it is closed as SUCCEEDED now,
      with every item active; under any other as FAILED, with the rollback noted. Whose it is,
      what was asked for and when it was started stay. */
  ghost predicate Recovered(before: Entry, after: Entry, generation: nat, now: int) {
    && after.rid == before.rid && after.requestDigest == before.requestDigest
    && after.generation == before.generation && after.createdAt == before.createdAt
    && |after.items| == |before.items|
    && (if before.generation == generation then
          && after.phase == Succeeded && after.committedAt == now && after.lastError == before.lastError
          && forall i :: 0 <= i < |after.items| ==> after.items[i] == before.items[i].(state := ActiveKey)
        else
          && after.phase == Failed && after.committedAt == before.committedAt
          && after.lastError == FromCode(PartialRollback) && after.items == before.items)
  }

  lemma RecoveredEntry(s: State, e: Entry, now: int)
    ensures Recovered(e, RecoverEntry(s, e, now).1, if BothActiveAt(s.mem, e.generation) then e.generation
                                                    else e.generation + 1, now)
  {
    hide SaveState, SaveJournal, UpdateLedger, RollbackStaging, BothActiveAt;
  }

  lemma RecoverEntryExactly(s: State, r: Rid, now: int)
    requires Inv(s) && r in s.mem.journal && !Terminal(s.mem.journal[r].phase)
    ensures var (t, e) := RecoverEntry(s, s.mem.journal[r], now);
            && Inv(t) && t.commits == s.commits && Recovered(s.mem.journal[r], e, |s.commits|, now)
            && t.mem.journal == s.mem.journal[r := e]
  {
    hide Inv, RecoverEntry, BothActiveAt, ActiveGood, CommitsGood, SameRequest;
    LastGeneration(s);
    RecoverKeeps(s, r, now);
    EntryInPlace(s, r);
    BothActiveIsGeneration(s.mem, s.commits, s.mem.journal[r].generation);
    RecoveredEntry(s, s.mem.journal[r], now);
  }

  lemma EntryInPlace(s: State, r: Rid)
    requires Inv(s) && r in s.mem.journal
    ensures s.mem.journal[r].rid == r && s.mem.journal[r].generation >= 1
    ensures CommitsGood(s.commits) && ActiveGood(s.mem, s.commits)
  {
  }

  // ---- replays ----

  /** The recorded digest is none, or that of the request. */
  ghost predicate SameContent(e: Entry, req: Request) { e.requestDigest == "" || e.requestDigest == req.digest }

  /** The answer to a request id the journal knows, over either interface, in every reachable
      state. Other content is a conflict and changes nothing, whatever the phase; the same content
      gets what was recorded, and an open entry is recovered first. */
  lemma ReplayAnsweredExactly(s: State, step: Step)
    requires Inv(s) && IsImport(step) && Enabled(s, step) && ReachesJournal(step)
    requires RidOf(RequestOf(step).requestId) in s.mem.journal
    ensures var (t, o) := Take(s, step);
            var rid := RidOf(RequestOf(step).requestId);
            var e := s.mem.journal[rid];
            && (!SameContent(e, RequestOf(step)) <==> o.code == Conflict)
            && (!SameContent(e, RequestOf(step)) ==>
                  t == s.(script := step.script) && o == Outcome(Conflict, ImportFailed, [], 0))
            && (SameContent(e, RequestOf(step)) && e.phase == Succeeded ==>
                  t == s.(script := step.script) && o == Outcome(Success, Committed, e.items, e.committedAt))
            && (SameContent(e, RequestOf(step)) && e.phase == Failed ==>
                  t == s.(script := step.script) && o == Outcome(ImportUnknown, ImportFailed, e.items, 0))
            && (SameContent(e, RequestOf(step)) && !Terminal(e.phase) ==>
                  && rid in t.mem.journal && t.mem.journal == s.mem.journal[rid := t.mem.journal[rid]]
                  && Recovered(e, t.mem.journal[rid], |s.commits|,
                               if EnvOf(step).recovery.trusted then EnvOf(step).recovery.utc else 0)
                  && o == if e.generation == |s.commits|
                          then Outcome(Success, Committed, t.mem.journal[rid].items, t.mem.journal[rid].committedAt)
                          else Outcome(PartialRollback, ImportFailed, t.mem.journal[rid].items, 0))
  {
    hide Inv, RecoverEntry, PreCheck, Kl1PreCheck, RunPipeline, Progressed, ValidateVersionAndTime, Kl1Admission;
    var rid := RidOf(RequestOf(step).requestId);
    var s1 := s.(script := step.script);
    ScriptIrrelevant(s, step.script);
    if !Terminal(s.mem.journal[rid].phase) { RecoverEntryExactly(s1, rid, NowMs(EnvOf(step).recovery)); }
  }

  /** A known id with another digest than the recorded one is a conflict and changes nothing. */
  ghost predicate RefusesOtherContent(s: State, t: State, req: Request, o: Outcome) {
    var rid := RidOf(req.requestId);
    rid in s.mem.journal && s.mem.journal[rid].requestDigest !in {"", req.digest} ==>
      t == s && o == Outcome(Conflict, ImportFailed, [], 0)
  }

  lemma OtherContentRefused(s: State, req: Request, env: Env)
    requires Shaped(req, env)
    ensures PreCheck(req, env) == Success ==>
              RefusesOtherContent(s, Import(s, req, env).0, req, Import(s, req, env).1)
  {
    hide RunPipeline, PreCheck, ValidateVersionAndTime, RecoverEntry;
  }

  lemma Kl1OtherContentRefused(s: State, req: Request, ctx: Kl1Context, env: Env)
    requires Shaped(req, env)
    ensures Kl1PreCheck(req, ctx, env) == Success ==>
              RefusesOtherContent(s, ImportKl1(s, req, ctx, env).0, req, ImportKl1(s, req, ctx, env).1)
  {
    hide RunPipeline, Kl1PreCheck, Kl1Admission, RecoverEntry;
  }

  /** The entry of a new request: its digest, the next generation, and every item as asked for. */
  ghost predicate RecordsRequest(e: Entry, req: Request, generation: nat)
    requires |req.envelopeDigests| == |req.items|
  {
    && e.rid == RidOf(req.requestId) && e.requestDigest == req.digest && e.generation == generation
    && |e.items| == |req.items|
    && forall j :: 0 <= j < |req.items| ==>
         && e.items[j].purpose == req.items[j].purpose && e.items[j].keyId == req.items[j].keyId
         && e.items[j].version == req.items[j].version && e.items[j].algorithm == req.items[j].algorithm
         && e.items[j].envelopeDigest == req.envelopeDigests[j] && e.items[j].kcv == req.items[j].kcv
  }

  lemma SameRecords(e: Entry, req: Request, generation: nat, now: int)
    requires |req.envelopeDigests| == |req.items| && SameRequest(e, NewEntry(req, generation, now))
    ensures RecordsRequest(e, req, generation)
  {
    var asked := NewEntry(req, generation, now);
    assert |e.items| == |Acks(e.items)| == |req.items|;
    forall j | 0 <= j < |req.items| ensures AckOf(e.items[j]) == AckOf(asked.items[j]) {
      assert Acks(e.items)[j] == Acks(asked.items)[j];
    }
  }

  lemma PipelineRecords(s: State, req: Request, env: Env, now: int)
    requires Shaped(req, env) && Admitted(s, req)
    ensures var t := RunPipeline(s, req, env, NextGeneration(s.mem), now).0;
            var rid := RidOf(req.requestId);
            rid in t.mem.journal && RecordsRequest(t.mem.journal[rid], req, |s.commits| + 1)
  {
    AdmittedFacts(s, req);
    PipelineKeeps(s, req, env, now);
    hide Inv, RunPipeline, BatchOf, Admitted, WellFormed, NewEntry, SameRequest, RecordsRequest;
    var t := RunPipeline(s, req, env, s.mem.generation + 1, now).0;
    NewEntryRid(req, s.mem.generation + 1, now);
    SameRecords(t.mem.journal[RidOf(req.requestId)], req, s.mem.generation + 1, now);
  }

  lemma NewEntryRid(req: Request, generation: nat, now: int)
    requires |req.envelopeDigests| == |req.items|
    ensures NewEntry(req, generation, now).rid == RidOf(req.requestId)
  {
  }

  /** Whatever becomes of a new request, over either interface: when the journal knows it after
      the call, it knows the request's own content. */
  lemma NewRequestIsRecorded(s: State, step: Step)
    requires Inv(s) && IsImport(step) && Enabled(s, step) && RidOf(RequestOf(step).requestId) !in s.mem.journal
    ensures var t := Take(s, step).0;
            var rid := RidOf(RequestOf(step).requestId);
            rid in t.mem.journal ==> RecordsRequest(t.mem.journal[rid], RequestOf(step), |s.commits| + 1)
    ensures Take(s, step).1.code == Success ==> RidOf(RequestOf(step).requestId) in Take(s, step).0.mem.journal
  {
    hide Inv, RunPipeline, PreCheck, ValidateVersionAndTime, NextGeneration, Admitted, HasResidue, LeaseCode,
         ItemsCover, Progressed, RecordsRequest;
    var (req, env) := (RequestOf(step), EnvOf(step));
    var s1 := s.(script := step.script);
    ScriptIrrelevant(s, step.script);
    if PreCheck(req, env) == Success && ValidateVersionAndTime(s1.mem, req.items, env.validation) == Success {
      Admission(s1, req, env);
      PipelineRecords(s1, req, env, NowMs(env.start));
    }
  }

  lemma PipelineAnnounces(s: State, req: Request, env: Env, now: int)
    requires Shaped(req, env) && Admitted(s, req)
    ensures var t := RunPipeline(s, req, env, NextGeneration(s.mem), now).0;
            var rid := RidOf(req.requestId);
            t.commits != s.commits ==>
              rid in t.disk.journal && t.disk.journal[rid].phase in {Committing, Succeeded, OutcomeUnknown}
  {
    AdmittedFacts(s, req);
    PipelineKeeps(s, req, env, now);
    NewEntryRid(req, s.mem.generation + 1, now);
    hide Inv, RunPipeline, BatchOf, Admitted, WellFormed, NewEntry, SameRequest;
  }

  /** However a call that commits ends, power lost or not: the saved record that has the new slots
      also has the request's entry, past the point of no return. */
  lemma CommitIsAnnounced(s: State, step: Step)
    requires Inv(s) && IsImport(step) && Enabled(s, step) && Take(s, step).0.commits != s.commits
    ensures var t := Take(s, step).0;
            var rid := RidOf(RequestOf(step).requestId);
            rid in t.disk.journal && t.disk.journal[rid].phase in {Committing, Succeeded, OutcomeUnknown}
  {
    hide Inv, RunPipeline, PreCheck, ValidateVersionAndTime, NextGeneration, Admitted, HasResidue, LeaseCode,
         ItemsCover, Progressed, Resume, Effect;
    var (req, env) := (RequestOf(step), EnvOf(step));
    var s1 := s.(script := step.script);
    ScriptIrrelevant(s, step.script);
    if RidOf(req.requestId) in s.mem.journal {
      ResumeEffect(s1, req, env);
    } else if PreCheck(req, env) == Success && ValidateVersionAndTime(s1.mem, req.items, env.validation) == Success {
      Admission(s1, req, env);
      PipelineAnnounces(s1, req, env, NowMs(env.start));
    }
  }

  lemma SuccessHasContent(s: State, step: Step)
    requires Inv(s) && IsImport(step) && Enabled(s, step) && Take(s, step).1.code == Success
    ensures var rid := RidOf(RequestOf(step).requestId);
            rid in Take(s, step).0.mem.journal && SameContent(Take(s, step).0.mem.journal[rid], RequestOf(step))
  {
    hide Inv, Take;
    FirstSuccessFits(s, step);
  }

  /** Once a caller has seen SUCCESS, then after any further run a replay that reaches the journal,
      over either interface, answers SUCCESS if and only if its digest is the recorded one; any
      other digest is a conflict. Neither changes anything. */
  lemma ReplayAfterSuccess(s: State, step: Step, later: seq<Step>, replay: Step)
    requires Inv(s) && IsImport(step) && Enabled(s, step)
    requires Take(s, step).0.alive && Take(s, step).1.code == Success
    requires Feasible(Take(s, step).0, later) && Enabled(StateAfter(Take(s, step).0, later), replay)
    requires IsImport(replay) && ReachesJournal(replay)
    requires RequestOf(replay).requestId == RequestOf(step).requestId
    ensures var t := Take(s, step).0;
            var rid := RidOf(RequestOf(step).requestId);
            rid in t.mem.journal &&
            var recorded := t.mem.journal[rid].requestDigest;
            var (v, o) := Take(StateAfter(t, later), replay);
            && (recorded == "" || recorded == RequestOf(step).digest)
            && (rid !in s.mem.journal ==> recorded == RequestOf(step).digest)
            && v == StateAfter(t, later).(script := replay.script)
            && (o.code == Success <==> recorded == "" || recorded == RequestOf(replay).digest)
            && (o.code == Success ==> o.state == Committed && Acks(o.items) == Acks(Take(s, step).1.items))
            && (o.code != Success ==> o == Outcome(Conflict, ImportFailed, [], 0))
  {
    hide Inv, Progressed, Take, StateAfter, Feasible, ReachesJournal, Enabled;
    var (t, o) := Take(s, step);
    var rid := RidOf(RequestOf(step).requestId);
    var u := StateAfter(t, later);
    StepKeeps(s, step);
    SuccessIsReported(s, step);
    SuccessHasContent(s, step);
    if rid !in s.mem.journal { NewRequestIsRecorded(s, step); }
    RunKeeps(t, later);
    StaysSucceeded(t, u, rid);
    DigestStays(t, u, rid);
    ReplayAnsweredExactly(u, replay);
  }

  lemma FailureStays(s: State, t: State, rid: Rid)
    requires Inv(s) && Inv(t) && Progressed(s, t) && IsFailed(s.mem, rid) && rid in s.disk.journal
    ensures IsFailed(t.mem, rid) && SameRequest(t.mem.journal[rid], s.mem.journal[rid])
  {
    hide Inv, SameRequest;
    DurableFacts(s);
    DurableFacts(t);
    StaysFailed(s, t, rid);
    SameRequestSymmetric(t.disk.journal[rid], t.mem.journal[rid]);
    SameRequestTransitive(t.mem.journal[rid], t.disk.journal[rid], s.disk.journal[rid]);
    SameRequestTransitive(t.mem.journal[rid], s.disk.journal[rid], s.mem.journal[rid]);
  }

  /** The same for a request that is FAILED and known to the disk: after any further run the same
      content is answered as failed with the same acknowledgement, other content as a conflict,
      and nothing changes: the id can never be used again. */
  lemma ReplayAfterFailure(s: State, rid: Rid, later: seq<Step>, replay: Step)
    requires Inv(s) && IsFailed(s.mem, rid) && rid in s.disk.journal
    requires Feasible(s, later) && Enabled(StateAfter(s, later), replay)
    requires IsImport(replay) && ReachesJournal(replay) && RidOf(RequestOf(replay).requestId) == rid
    ensures var e := s.mem.journal[rid];
            var (v, o) := Take(StateAfter(s, later), replay);
            && v == StateAfter(s, later).(script := replay.script) && o.state == ImportFailed
            && o.code == (if e.requestDigest == "" || e.requestDigest == RequestOf(replay).digest
                          then ImportUnknown else Conflict)
            && (o.code == ImportUnknown ==> Acks(o.items) == Acks(e.items))
  {
    hide Inv, Progressed, Take, StateAfter, Feasible, ReachesJournal, Enabled;
    RunKeeps(s, later);
    FailureStays(s, StateAfter(s, later), rid);
    ReplayAnsweredExactly(StateAfter(s, later), replay);
  }

  // ---- the result query ----

  /** The answer to a result query about a known request, phase by phase. */
  lemma QueryOfKnownExactly(s: State, requestId: string)
    requires 1 <= |requestId| <= 128 && RidOf(requestId) in s.mem.journal
    ensures var e := s.mem.journal[RidOf(requestId)];
            var q := QueryResult(s, requestId);
            && q.code == Success && q.items == e.items
            && (q.state == Committed <==> e.phase == Succeeded)
            && (q.state == ImportFailed <==> e.phase == Failed)
            && (q.state == Unknown <==> e.phase == OutcomeUnknown)
            && (q.state == Requested <==> e.phase == Validated || e.phase == Processing)
            && (q.state == Staged <==>
                  e.phase == UplinkStaged || e.phase == BothStaged || e.phase == Committing)
            && q.committedAt == (if e.phase == Succeeded then e.committedAt else 0)
  {
  }

  /** What is left of a pipeline when its call is over. */
  ghost predicate AtRest(m: Image) {
    forall r :: r in m.journal ==> m.journal[r].phase in {Succeeded, Failed, OutcomeUnknown}
  }

  lemma TracksAtRest(s: State, t: State, e: Entry)
    requires AtRest(s.mem) && Tracks(s, t.mem, e)
    requires t.mem.journal[e.rid].phase in {Succeeded, Failed, OutcomeUnknown}
    ensures AtRest(t.mem)
  {
    hide SameRequest;
  }

  lemma EndRests(s: State, t: State, e: Entry, o: Outcome)
    requires AtRest(s.mem) && (Lost(s, t, e, o) || Won(s, t, e, o, t.mem.active))
    ensures AtRest(t.mem)
  {
    hide Inv, AtRest, SameRequest;
    TracksAtRest(s, t, e);
  }

  lemma PipelineRests(s: State, req: Request, env: Env, now: int)
    requires Shaped(req, env) && Admitted(s, req) && AtRest(s.mem)
    ensures AtRest(RunPipeline(s, req, env, NextGeneration(s.mem), now).0.mem)
  {
    hide RunPipeline, BatchOf, AtRest, NewEntry, Lost, Won;
    AdmittedFacts(s, req);
    PipelineKeeps(s, req, env, now);
    var (t, o) := RunPipeline(s, req, env, s.mem.generation + 1, now);
    EndRests(s, t, NewEntry(req, s.mem.generation + 1, now), o);
  }

  lemma ResumeRests(s: State, req: Request, env: Env)
    requires Inv(s) && RidOf(req.requestId) in s.mem.journal && AtRest(s.mem)
    ensures AtRest(Resume(s, s.mem.journal[RidOf(req.requestId)], req, env).0.mem)
  {
    hide Inv, RecoverEntry;
    var rid := RidOf(req.requestId);
    if !Terminal(s.mem.journal[rid].phase) { RecoverEntryExactly(s, rid, NowMs(env.recovery)); }
  }

  lemma StepRests(s: State, step: Step)
    requires Inv(s) && Enabled(s, step) && AtRest(s.mem)
    ensures AtRest(Take(s, step).0.mem)
  {
    hide Inv, RunPipeline, Resume, PreCheck, ValidateVersionAndTime, NextGeneration, Admitted, HasResidue, LeaseCode,
         ItemsCover, Progressed, Restart, SameRequest;
    if IsImport(step) {
      var (req, env) := (RequestOf(step), EnvOf(step));
      var s1 := s.(script := step.script);
      ScriptIrrelevant(s, step.script);
      if RidOf(req.requestId) in s.mem.journal {
        ResumeRests(s1, req, env);
      } else if PreCheck(req, env) == Success && ValidateVersionAndTime(s1.mem, req.items, env.validation) == Success {
        Admission(s1, req, env);
        PipelineRests(s1, req, env, NowMs(env.start));
      }
    } else {
      RestartSettles(s, step.script, step.rids, step.clock);
    }
  }

  lemma {:induction false} RunRests(s: State, steps: seq<Step>)
    requires Inv(s) && Feasible(s, steps) && AtRest(s.mem)
    ensures AtRest(StateAfter(s, steps).mem)
    decreases |steps|
  {
    hide Inv, Take, Enabled, Progressed, AtRest;
    if steps != [] {
      StepKeeps(s, steps[0]);
      StepRests(s, steps[0]);
      RunRests(Take(s, steps[0]).0, steps[1..]);
    }
  }

  /** Between calls, after any run, the query never answers that a request is on its way: it is
      COMMITTED, FAILED or UNKNOWN as its entry says, NOT_FOUND only for a request without entry,
      and a request without entry is UNKNOWN or NOT_FOUND. */
  lemma QueryBetweenCalls(steps: seq<Step>, requestId: string)
    requires Feasible(INITIAL, steps) && 1 <= |requestId| <= 128
    ensures var s := StateAfter(INITIAL, steps);
            var rid := RidOf(requestId);
            var q := QueryResult(s, requestId);
            && q.code == Success && q.state in {Committed, ImportFailed, Unknown, NotFound}
            && (q.state == Committed <==> rid in s.mem.journal && s.mem.journal[rid].phase == Succeeded)
            && (q.state == ImportFailed <==> rid in s.mem.journal && s.mem.journal[rid].phase == Failed)
            && (q.state == NotFound ==> rid !in s.mem.journal)
  {
    hide Inv, Feasible, StateAfter, HasResidue;
    InitialGood();
    RunRests(INITIAL, steps);
    var s := StateAfter(INITIAL, steps);
    if RidOf(requestId) in s.mem.journal { QueryOfKnownExactly(s, requestId); }
  }

  // ---- before the journal ----

  /** A request reaches the journal if and only if the service is ready, the request is well
      formed, the device is bound and every envelope passed; over KL1 also the epochs are set and
      the profile is known. */
  lemma ReachesJournalExactly(step: Step)
    requires IsImport(step)
    ensures ReachesJournal(step) <==>
      && EnvOf(step).importReady && WellFormed(RequestOf(step)) && EnvOf(step).bindingReady
      && EnvOf(step).envelopeCheck == Success
      && (step.DoImportKl1? ==> EnvOf(step).epoch != 0 && step.ctx.epoch != 0 && step.ctx.profileKnown)
  {
    StructureAccepts(RequestOf(step));
    hide ValidateStructure;
  }

  /** Otherwise nothing changes, and the answer says which of these it was, in this order. */
  lemma StoppedBeforeJournal(s: State, step: Step)
    requires IsImport(step) && Enabled(s, step) && !ReachesJournal(step)
    ensures var (t, o) := Take(s, step);
            var (req, env) := (RequestOf(step), EnvOf(step));
            && t == s.(script := step.script) && o == Outcome(o.code, ImportFailed, [], 0)
            && (if !env.importReady
                   || (step.DoImportKl1? && (env.epoch == 0 || !step.ctx.profileKnown || step.ctx.epoch == 0))
                then o.code == NotReady
                else if !WellFormed(req) then o.code in {InvalidParameter, Unsupported, WrappedKeyInvalid}
                else if !env.bindingReady then o.code == NotReady
                else o.code == env.envelopeCheck)
  {
    StructureAccepts(RequestOf(step));
    StructureCodes(RequestOf(step));
    hide ValidateStructure, RunPipeline, Resume, Kl1Admission, WellFormed;
  }

  lemma StructureCodes(req: Request)
    ensures ValidateStructure(req) in {Success, InvalidParameter, Unsupported, WrappedKeyInvalid}
    ensures ValidateStructure(req) == InvalidParameter <==> |req.requestId| == 0 || |req.requestId| > 128
  {
    ItemsCodes(req.items, 0);
  }

  lemma ItemsCodes(items: seq<Item>, i: nat)
    requires i <= |items|
    ensures ItemsCode(items, i) in {Success, Unsupported, WrappedKeyInvalid}
    decreases |items| - i
  {
    if i < |items| { ItemsCodes(items, i + 1); }
  }

  /** The request is refused for its first bad item, the items before it being good. */
  lemma {:induction false} FirstBadItem(items: seq<Item>, i: nat) returns (k: nat)
    requires i <= |items| && ItemsCode(items, i) != Success
    ensures i <= k < |items|
    ensures forall j :: i <= j < k ==> ItemCode(items[j], PurposesOf(items[..j]), KeyIdsOf(items[..j])) == Success
    ensures ItemCode(items[k], PurposesOf(items[..k]), KeyIdsOf(items[..k])) == ItemsCode(items, i)
    decreases |items| - i
  {
    hide ItemCode;
    k := i;
    if ItemCode(items[i], PurposesOf(items[..i]), KeyIdsOf(items[..i])) == Success { k := FirstBadItem(items, i + 1); }
  }

  /** Which code a bad item gets: a foreign or repeated purpose, or another algorithm, suite or
      format is unsupported; a missing or repeated key id, or a value out of its range, makes the
      wrapped key invalid; purpose, key id, profile and ranges in this order. */
  lemma ItemRefusedExactly(item: Item, purposes: set<Purpose>, keyIds: set<string>)
    ensures var purposeOk := item.purpose in {UplinkAead, DownlinkAead} && item.purpose !in purposes;
            var keyOk := item.keyId != "" && item.keyId !in keyIds;
            var profileOk := item.algorithm == "AES-256" && item.suite == "ECDH_ES_P256_HKDF_SHA256_AES256GCM"
                             && item.formatV1;
            var rangesOk := 1 <= item.version <= 9_223_372_036_854_775_807 && 0 < item.validFrom < item.validTo
                            && 1 <= item.wrappedSize <= 4096 && 1 <= item.parametersSize <= 2048
                            && item.digestSize == 32 && item.kcvPresent;
            && (ItemCode(item, purposes, keyIds) == Success <==> purposeOk && keyOk && profileOk && rangesOk)
            && (ItemCode(item, purposes, keyIds) == Unsupported <==> !purposeOk || (keyOk && !profileOk))
            && (ItemCode(item, purposes, keyIds) == WrappedKeyInvalid <==>
                  purposeOk && (!keyOk || (profileOk && !rangesOk)))
  {
  }
}
