/** What an import of a new request answers, said without the functions that compute it: every
    field of a first success, and the code and the phase each failure ends with. */
module ProvisioningReports {
  import opened Wrappers
  import opened ProviderState
  import opened Provisioning
  import opened ProvisioningInvariants
  import opened ProvisioningCalls
  import opened ProvisioningRuns
  import opened ProvisioningTheorems
  import opened ProvisioningProgress

  // ---- what a first success reports ----

  /** The status of imported item `j`: everything the request said about it, the check value the
      security module computed, the proof it signed and the certificate it is bound to. */
  ghost predicate ReportedFor(st: ItemStatus, req: Request, env: Env, j: nat)
    requires Shaped(req, env) && j < |req.items|
  {
    var item := req.items[j];
    && st.purpose == item.purpose && st.keyId == item.keyId && st.version == item.version && st.state == ActiveKey
    && st.algorithm == item.algorithm && st.validFrom == item.validFrom && st.validTo == item.validTo
    && st.envelopeDigest == req.envelopeDigests[j]
    && env.unwraps[j].Opened? && st.kcv == env.unwraps[j].kcv && st.kcvPresent
    && env.proofs[j].Some? && |env.proofs[j].value| == 64 && st.proof == env.proofs[j].value
    && st.recipientDigest == env.certDigest
  }

  lemma ProofIsSigned(m: Image, p: Purpose, version: nat, signed: Option<seq<byte>>)
    requires GenerateProof(m, p, version, signed).Some?
    ensures signed.Some? && |signed.value| == 64 && GenerateProof(m, p, version, signed) == signed
  {
  }

  lemma FinishReports(s: State, e: Entry, req: Request, env: Env, generation: nat, start: int, now: int)
    requires Shaped(req, env) && e.items == NewEntry(req, generation, start).items
    requires CommitPhase(s, e, env, now).1.code == Success
    requires forall j :: 0 <= j < |req.items| ==> env.unwraps[j].Opened?
    ensures var o := CommitPhase(s, e, env, now).1;
            && o.state == Committed && o.committedAt == (if env.commit.trusted then env.commit.utc else now)
            && |o.items| == |req.items|
            && forall j :: 0 <= j < |req.items| ==>
                 ReportedFor(o.items[j], req, env, j)
  {
    hide SaveState, SaveJournal, RollbackStaging, CommitBatch, UpdateLedger, ProofsMade, GenerateProof, FinishStatus;
    var e1 := e.(phase := Committing);
    var s1 := CommitBatch(SaveJournal(s, e1).0, e1.generation, e1.rid).0;
    assert ProofsMade(s1.mem, e1, env);
    var o := CommitPhase(s, e, env, now).1;
    forall j | 0 <= j < |req.items|
      ensures ReportedFor(o.items[j], req, env, j)
    {
      assert o.items[j] == FinishStatus(s1.mem, e1.items[j], env, j);
      assert e1.items[j] == NewStatus(req.items[j], req.envelopeDigests[j]);
      OneReported(s1.mem, e1, req, env, j);
    }
  }

  lemma OneReported(m: Image, e: Entry, req: Request, env: Env, j: nat)
    requires Shaped(req, env) && |e.items| == |req.items| && j < |req.items| && ProofsMade(m, e, env)
    requires e.items[j] == NewStatus(req.items[j], req.envelopeDigests[j]) && env.unwraps[j].Opened?
    ensures ReportedFor(FinishStatus(m, e.items[j], env, j), req, env, j)
  {
    hide GenerateProof;
    ProofIsSigned(m, e.items[j].purpose, e.items[j].version, env.proofs[j]);
  }

  lemma PipelineReports(s: State, req: Request, env: Env, now: int)
    requires Shaped(req, env) && Admitted(s, req)
    requires RunPipeline(s, req, env, NextGeneration(s.mem), now).1.code == Success
    ensures var o := RunPipeline(s, req, env, NextGeneration(s.mem), now).1;
            && o.state == Committed && o.committedAt == (if env.commit.trusted then env.commit.utc else now)
            && |o.items| == |req.items|
            && forall j :: 0 <= j < |req.items| ==>
                 ReportedFor(o.items[j], req, env, j)
  {
    AdmittedFacts(s, req);
    PipelineKeeps(s, req, env, now);
    var s3, e3 := SuccessCommits(s, req, env, NextGeneration(s.mem), now);
    hide Inv, RunPipeline, Admitted, WellFormed, CommitPhase, ReportedFor, NewEntry;
    assert forall j :: 0 <= j < |req.items| ==> env.unwraps[j].Opened?;
    SameItems(req, NextGeneration(s.mem), now, e3);
    FinishReports(s3, e3, req, env, NextGeneration(s.mem), now, now);
  }

  lemma SameItems(req: Request, generation: nat, now: int, e: Entry)
    requires |req.envelopeDigests| == |req.items| && e == NewEntry(req, generation, now).(phase := e.phase)
    ensures e.items == NewEntry(req, generation, now).items
  {
  }

  /** The answer of a first SUCCESS, over either interface, field by field. */
  lemma FirstSuccessReports(s: State, step: Step)
    requires Inv(s) && IsImport(step) && Enabled(s, step) && RidOf(RequestOf(step).requestId) !in s.mem.journal
    requires Take(s, step).1.code == Success
    ensures var o := Take(s, step).1;
            var (req, env) := (RequestOf(step), EnvOf(step));
            && o.state == Committed
            && o.committedAt == (if env.commit.trusted then env.commit.utc
                                 else if env.start.trusted then env.start.utc else 0)
            && |o.items| == |req.items|
            && forall j :: 0 <= j < |req.items| ==>
                 ReportedFor(o.items[j], req, env, j)
  {
    hide Inv, RunPipeline, PreCheck, ValidateVersionAndTime, NextGeneration, Admitted, HasResidue, LeaseCode,
         ItemsCover, Progressed, ReportedFor;
    var (req, env) := (RequestOf(step), EnvOf(step));
    var s1 := s.(script := step.script);
    ScriptIrrelevant(s, step.script);
    if PreCheck(req, env) == Success && ValidateVersionAndTime(s1.mem, req.items, env.validation) == Success {
      Admission(s1, req, env);
      PipelineReports(s1, req, env, NowMs(env.start));
    }
  }

  // ---- what each failure reports ----

  /** An item opens if and only if the security module gave a key of the algorithm's size and,
      when the item names a check value, that one. */
  lemma UnwrapAnsweredExactly(item: Item, u: Unwrap)
    ensures var size := if item.algorithm in {"AES-256", "AES-256-GCM"} then 32
                        else if item.algorithm == "AES-128-GCM" then 16 else 0;
            && (UnwrapCode(item, u) == Success <==>
                  size > 0 && u.Opened? && |u.key| == size && (item.kcvPresent ==> u.kcv == item.kcv))
            && (UnwrapCode(item, u) != Success ==>
                  UnwrapCode(item, u) == if size == 0 then Unsupported
                                         else if u.Rejected? then u.fault else WrappedKeyInvalid)
  {
  }

  /** The version and time check, when it refuses: no trusted time; otherwise the first item that
      is not newer than its active slot or not valid now decides. */
  lemma VersionAndTimeRefuses(m: Image, items: seq<Item>, t: Sample) returns (k: nat)
    requires ValidateVersionAndTime(m, items, t) != Success
    ensures !t.trusted <==> ValidateVersionAndTime(m, items, t) == NotReady
    ensures t.trusted ==> k < |items|
    ensures t.trusted ==>
      var stale := items[k].purpose in m.active && items[k].version <= m.active[items[k].purpose].version;
      && (stale || t.utc < items[k].validFrom || t.utc > items[k].validTo)
      && ValidateVersionAndTime(m, items, t) == (if stale then Conflict else WrappedKeyInvalid)
      && forall j :: 0 <= j < k ==>
           && (items[j].purpose in m.active ==> m.active[items[j].purpose].version < items[j].version)
           && items[j].validFrom <= t.utc <= items[j].validTo
  {
    k := 0;
    if t.trusted { k := FirstRefused(m, items, t.utc, 0); }
  }

  lemma {:induction false} FirstRefused(m: Image, items: seq<Item>, now: int, i: nat) returns (k: nat)
    requires i <= |items| && VersionAndTimeFrom(m, items, now, i) != Success
    ensures i <= k < |items|
    ensures var stale := items[k].purpose in m.active && items[k].version <= m.active[items[k].purpose].version;
            && (stale || now < items[k].validFrom || now > items[k].validTo)
            && VersionAndTimeFrom(m, items, now, i) == (if stale then Conflict else WrappedKeyInvalid)
    ensures forall j :: i <= j < k ==>
              && (items[j].purpose in m.active ==> m.active[items[j].purpose].version < items[j].version)
              && items[j].validFrom <= now <= items[j].validTo
    decreases |items| - i
  {
    k := i;
    if VersionAndTimeFrom(m, items, now, i) == VersionAndTimeFrom(m, items, now, i + 1)
       && !(items[i].purpose in m.active && items[i].version <= m.active[items[i].purpose].version)
       && items[i].validFrom <= now <= items[i].validTo
    {
      k := FirstRefused(m, items, now, i + 1);
    }
  }

  /** How a pipeline over a store that works ends: with a rejected item by its code, or as unknown
      when the module failed inside; with a cipher fault rolled back; with a proof missing as
      unknown, the batch committed; otherwise with SUCCESS. */
  ghost predicate PipelineAnswered(req: Request, env: Env, o: Outcome, phase: Phase)
    requires Shaped(req, env)
  {
    if exists k :: Rejects(req, env, k) then
      exists k :: Rejects(req, env, k) &&
        var rc := UnwrapCode(req.items[k], env.unwraps[k]);
        if rc == InternalError then o == Outcome(OutcomeUnknownCode, Unknown, [], 0) && phase == OutcomeUnknown
        else o == Outcome(rc, ImportFailed, [], 0) && phase == Failed
    else if exists j :: 0 <= j < |env.cipherFaults| && env.cipherFaults[j] then
      o == Outcome(WrappedKeyInvalid, ImportFailed, [], 0) && phase == Failed
    else if exists j :: 0 <= j < |env.proofs| && !(env.proofs[j].Some? && |env.proofs[j].value| == 64) then
      o == Outcome(OutcomeUnknownCode, Unknown, [], 0) && phase == OutcomeUnknown
    else o.code == Success && o.state == Committed && phase == Succeeded
  }

  /** Item `k` is the first that does not open. */
  ghost predicate Rejects(req: Request, env: Env, k: int)
    requires Shaped(req, env)
  {
    0 <= k < |req.items| && UnwrapCode(req.items[k], env.unwraps[k]) != Success
    && forall j :: 0 <= j < k ==> UnwrapCode(req.items[j], env.unwraps[j]) == Success
  }

  lemma EndsHealthy(s: State, e: Entry, rc: Code)
    requires Healthy(s) && rc in {NotReady, WrappedKeyInvalid, Unsupported, InternalError}
    ensures var (t, o) := EndOn(s, e, rc);
            e.rid in t.mem.journal &&
            if rc == InternalError
            then o == Outcome(OutcomeUnknownCode, Unknown, [], 0) && t.mem.journal[e.rid].phase == OutcomeUnknown
            else o == Outcome(rc, ImportFailed, [], 0) && t.mem.journal[e.rid].phase == Failed
  {
  }

  lemma {:induction false} StageEnds(s: State, e: Entry, req: Request, env: Env, i: nat) returns (k: nat)
    requires Healthy(s) && Shaped(req, env) && i <= |req.items| && StageFrom(s, e, req, env, i).Ended?
    requires forall j :: 0 <= j < i ==> UnwrapCode(req.items[j], env.unwraps[j]) == Success
    ensures Rejects(req, env, k)
    ensures var r := StageFrom(s, e, req, env, i);
            var rc := UnwrapCode(req.items[k], env.unwraps[k]);
            e.rid in r.s.mem.journal &&
            if rc == InternalError
            then r.o == Outcome(OutcomeUnknownCode, Unknown, [], 0)
                 && r.s.mem.journal[e.rid].phase == OutcomeUnknown
            else r.o == Outcome(rc, ImportFailed, [], 0) && r.s.mem.journal[e.rid].phase == Failed
    decreases |req.items| - i
  {
    hide SaveState, EndOn;
    k := i;
    if UnwrapCode(req.items[i], env.unwraps[i]) == Success {
      var s1 := UnwrapToStaging(s, req.items[i], e.generation, env.unwraps[i]).0;
      SaveWorks(s.(mem := WithStaged(s.mem, req.items[i], e.generation, env.unwraps[i].key)));
      var e1 := if req.items[i].purpose == UplinkAead then e.(phase := UplinkStaged) else e;
      SavedHealthy(s1, e1);
      k := StageEnds(SaveJournal(s1, e1).0, e1, req, env, i + 1);
    } else {
      UnwrapFaults(req.items[i], env.unwraps[i]);
      EndsHealthy(s, e, UnwrapCode(req.items[i], env.unwraps[i]));
    }
  }

  lemma UnwrapFaults(item: Item, u: Unwrap)
    ensures UnwrapCode(item, u) in {Success, NotReady, WrappedKeyInvalid, Unsupported, InternalError}
  {
  }

  lemma VerifyCode(m: Image, req: Request, env: Env, generation: nat, i: nat)
    requires Shaped(req, env) && i <= |req.items| && StagedUpTo(m, req, env, generation, |req.items|)
    requires forall j :: 0 <= j < |req.items| ==> UnwrapCode(req.items[j], env.unwraps[j]) == Success
    ensures VerifyFrom(m, req, env, i) in {Success, WrappedKeyInvalid}
    decreases |req.items| - i
  {
    if i < |req.items| {
      assert m.staging[req.items[i].purpose] == StagedSlot(req.items[i], generation, env.unwraps[i].key);
      VerifyCode(m, req, env, generation, i + 1);
    }
  }

  lemma CommittedAnswers(s: State, e: Entry, env: Env, now: int)
    requires |e.items| == |env.proofs| == |env.unwraps|
    requires CommitPhase(s, e, env, now).0.commits != s.commits
    ensures var o := CommitPhase(s, e, env, now).1;
            if o.code == Success then o.state == Committed else o == Outcome(OutcomeUnknownCode, Unknown, [], 0)
  {
    hide SaveState, SaveJournal, CommitBatch, EndOn, FinishStatus, ProofsMade, UpdateLedger;
    var e1 := e.(phase := Committing);
    var s1 := SaveJournal(s, e1).0;
    var (s2, rc) := CommitBatch(s1, e.generation, e.rid);
    UncommittedStays(s, s1, s2, e1, rc, e.generation, e.rid);
  }

  lemma UncommittedStays(s: State, s1: State, s2: State, e: Entry, rc: Code, generation: nat, owner: Rid)
    requires s1 == SaveJournal(s, e).0 && (s2, rc) == CommitBatch(s1, generation, owner)
    ensures rc != Success ==> EndOn(s2, e, rc).0.commits == s.commits
  {
    hide MarkerOf;
    if rc != Success {
      assert s2.commits == s.commits;
      EndKeepsCommits(s2, e, rc);
    }
  }

  lemma EndKeepsCommits(s: State, e: Entry, rc: Code)
    ensures EndOn(s, e, rc).0.commits == s.commits
  {
  }

  /** A pipeline over a store that works, started by an admitted request: its answer, and the phase
      its entry is left in, for every outcome of the security module. */
  lemma PipelineAnswersExactly(s: State, req: Request, env: Env, now: int)
    requires Healthy(s) && Shaped(req, env) && Admitted(s, req) && WellFormed(req)
    ensures var (t, o) := RunPipeline(s, req, env, s.mem.generation + 1, now);
            var rid := RidOf(req.requestId);
            rid in t.mem.journal && PipelineAnswered(req, env, o, t.mem.journal[rid].phase)
  {
    hide Inv, Uncommitted, SaveState, SaveJournal, MayCommit, Admitted, UnwrapCode, VerifyFrom, CommitPhase, StageFrom,
         Healthy, KeySize, PipelineAnswered, EndOn;
    var e := NewEntry(req, s.mem.generation + 1, now);
    var s1 := SaveJournal(s, e).0;
    SavedHealthy(s, e);
    StartKeeps(s, req, env, now);
    StageFromKeeps(s, s1, e, e, req, env, 0);
    HealthyStage(s1, e, req, env, 0);
    match StageFrom(s1, e, req, env, 0)
    case Ended(t, o) =>
      var k := StageEnds(s1, e, req, env, 0);
      RejectedAnswered(req, env, o, t.mem.journal[e.rid].phase, k);
    case Going(s2, e2) => GoingAnswers(s, s2, e, e2, req, env, now);
  }

  /** From both items staged on. */
  lemma GoingAnswers(s0: State, s: State, e: Entry, e1: Entry, req: Request, env: Env, now: int)
    requires Healthy(s) && Shaped(req, env) && Admitted(s0, req) && WellFormed(req)
    requires e == NewEntry(req, s0.mem.generation + 1, now) && e1 == e.(phase := e1.phase)
    requires Staging(s0, s, e, e1, req, env, 2)
    requires forall j :: 0 <= j < |req.items| ==> UnwrapCode(req.items[j], env.unwraps[j]) == Success
    ensures var e3 := e1.(phase := BothStaged);
            var s3 := SaveJournal(s, e3).0;
            var rc := VerifyFrom(s3.mem, req, env, 0);
            var (t, o) := if rc != Success then Abandon(s3, e3, rc) else CommitPhase(s3, e3, env, now);
            e.rid in t.mem.journal && PipelineAnswered(req, env, o, t.mem.journal[e.rid].phase)
  {
    hide Inv, Uncommitted, SaveState, SaveJournal, MayCommit, Admitted, UnwrapCode, VerifyFrom, CommitPhase,
         Healthy, KeySize, PipelineAnswered, Abandon, Won, Lost, BatchOf;
    var e3 := e1.(phase := BothStaged);
    var s3 := SaveJournal(s, e3).0;
    StagedSameRequest(s0, s, e, e1, e3, req, env);
    StageStep(s0, s, e, e1, e3, req, env, 2);
    SavedHealthy(s, e3);
    StagedVerifies(s3.mem, req, env, e.generation, 0);
    VerifyCode(s3.mem, req, env, e.generation, 0);
    if VerifyFrom(s3.mem, req, env, 0) == Success {
      VerifiedAnswers(s0, s3, e, e3, req, env, now);
    } else {
      AbandonPhase(s3, e3);
      FaultAnswered(req, env, Abandon(s3, e3, WrappedKeyInvalid).1, Failed);
    }
  }

  lemma VerifiedAnswers(s0: State, s: State, e: Entry, e1: Entry, req: Request, env: Env, now: int)
    requires Healthy(s) && Shaped(req, env) && Admitted(s0, req) && WellFormed(req)
    requires e == NewEntry(req, s0.mem.generation + 1, now) && e1 == e.(phase := e1.phase)
    requires Staging(s0, s, e, e1, req, env, 2)
    requires forall j :: 0 <= j < |req.items| ==>
               UnwrapCode(req.items[j], env.unwraps[j]) == Success && !env.cipherFaults[j]
    ensures var (t, o) := CommitPhase(s, e1, env, now);
            e.rid in t.mem.journal && PipelineAnswered(req, env, o, t.mem.journal[e.rid].phase)
  {
    hide Inv, Uncommitted, MayCommit, Admitted, UnwrapCode, CommitPhase, PipelineAnswered, Won, Lost, BatchOf, Healthy,
         StagedUpTo, SameRequest;
    BeforeCommit(s0, s, e);
    HealthyCommit(s0, s, e, e1, req, env, now);
    CommittedAnswers(s, e1, env, now);
    CommitPhaseKeeps(s0, s, e, e1, req, env, now);
    var (t, o) := CommitPhase(s, e1, env, now);
    WonPhase(s0, s, t, e, o);
    OpenedAnswered(req, env, o, t.mem.journal[e.rid].phase);
  }

  lemma WonPhase(s0: State, s: State, t: State, e: Entry, o: Outcome)
    requires Lost(s0, t, e, o) || Won(s0, t, e, o, t.mem.active)
    requires s.commits == s0.commits && t.commits != s.commits
    ensures e.rid in t.mem.journal
    ensures t.mem.journal[e.rid].phase == if o.code == Success then Succeeded else OutcomeUnknown
  {
    hide Inv, SameRequest;
  }

  lemma AbandonPhase(s: State, e: Entry)
    ensures var (t, o) := Abandon(s, e, WrappedKeyInvalid);
            && o == Outcome(WrappedKeyInvalid, ImportFailed, [], 0)
            && e.rid in t.mem.journal && t.mem.journal[e.rid].phase == Failed
  {
  }

  lemma RejectedAnswered(req: Request, env: Env, o: Outcome, phase: Phase, k: int)
    requires Shaped(req, env) && Rejects(req, env, k)
    requires var rc := UnwrapCode(req.items[k], env.unwraps[k]);
             if rc == InternalError then o == Outcome(OutcomeUnknownCode, Unknown, [], 0) && phase == OutcomeUnknown
             else o == Outcome(rc, ImportFailed, [], 0) && phase == Failed
    ensures PipelineAnswered(req, env, o, phase)
  {
    hide UnwrapCode;
  }

  lemma FaultAnswered(req: Request, env: Env, o: Outcome, phase: Phase)
    requires Shaped(req, env) && o == Outcome(WrappedKeyInvalid, ImportFailed, [], 0) && phase == Failed
    requires forall j :: 0 <= j < |req.items| ==> UnwrapCode(req.items[j], env.unwraps[j]) == Success
    requires exists j :: 0 <= j < |env.cipherFaults| && env.cipherFaults[j]
    ensures PipelineAnswered(req, env, o, phase)
  {
    hide UnwrapCode;
  }

  lemma OpenedAnswered(req: Request, env: Env, o: Outcome, phase: Phase)
    requires Shaped(req, env)
    requires forall j :: 0 <= j < |req.items| ==>
               UnwrapCode(req.items[j], env.unwraps[j]) == Success && !env.cipherFaults[j]
    requires o.code == Success <==>
             forall j :: 0 <= j < |req.items| ==> env.proofs[j].Some? && |env.proofs[j].value| == 64
    requires if o.code == Success then o.state == Committed && phase == Succeeded
             else o == Outcome(OutcomeUnknownCode, Unknown, [], 0) && phase == OutcomeUnknown
    ensures PipelineAnswered(req, env, o, phase)
  {
    hide UnwrapCode;
  }

  // ---- the whole call ----

  /** The answer to a request id the journal does not know, over either interface, once the checks
      before the journal pass and while the store works. Nothing changes when the version and time
      check refuses, or over KL1 when something is left over or the admission refuses; otherwise
      the pipeline's outcome is the answer. */
  lemma NewRequestAnsweredExactly(s: State, step: Step)
    requires Inv(s) && s.alive && IsImport(step) && Enabled(s, step) && step.script == [] && ReachesJournal(step)
    requires RidOf(RequestOf(step).requestId) !in s.mem.journal
    ensures var (t, o) := Take(s, step);
            var (req, env) := (RequestOf(step), EnvOf(step));
            var rid := RidOf(req.requestId);
            var leftover := s.commits != [] || s.mem.staging != map[]
                            || exists p :: p in REQUIRED && p in s.ledger && s.ledger[p].rid == rid;
            if step.DoImportKl1? && leftover then
              t == s.(script := []) && o == Outcome(ImportUnknown, Unknown, [], 0)
            else if step.DoImportKl1? && Kl1Admission(s, req, step.ctx, env) != Success then
              t == s.(script := []) && o == Outcome(Kl1Admission(s, req, step.ctx, env), ImportFailed, [], 0)
            else if ValidateVersionAndTime(s.mem, req.items, env.validation) != Success then
              t == s.(script := [])
              && o == Outcome(ValidateVersionAndTime(s.mem, req.items, env.validation), ImportFailed, [], 0)
            else rid in t.mem.journal && PipelineAnswered(req, env, o, t.mem.journal[rid].phase)
  {
    hide Inv, RunPipeline, PreCheck, ValidateVersionAndTime, Admitted, NextGeneration, LeaseCode, ItemsCover,
         HasTransactionResidue, Progressed, PipelineAnswered;
    var (req, env) := (RequestOf(step), EnvOf(step));
    var s1 := s.(script := []);
    ScriptIrrelevant(s, []);
    ResidueExactly(s1);
    ReachedIsWellFormed(step);
    if ValidateVersionAndTime(s1.mem, req.items, env.validation) == Success {
      Admission(s1, req, env);
      AdmittedFacts(s1, req);
      PipelineAnswersExactly(s1, req, env, NowMs(env.start));
    }
  }

  lemma ReachedIsWellFormed(step: Step)
    requires IsImport(step) && ReachesJournal(step)
    ensures PreCheck(RequestOf(step), EnvOf(step)) == Success && WellFormed(RequestOf(step))
  {
    StructureAccepts(RequestOf(step));
    hide ValidateStructure;
  }

  /** Which admission check refused, for the two codes of the lease and for a time that cannot be
      trusted; everything else that refuses is about items and certificate. */
  lemma Kl1RefusedExactly(s: State, req: Request, ctx: Kl1Context, env: Env)
    ensures var rc := Kl1Admission(s, req, ctx, env);
            var early := Good(env.admission) && ctx.epoch == env.epoch && Upper(env.admission) < ctx.expireAt;
            var covered := (forall it :: it in req.items ==>
                              it.validFrom <= Upper(env.admission) && ctx.expireAt <= it.validTo)
                           && env.certValidFrom <= Upper(env.admission) && ctx.expireAt <= env.certValidTo;
            var timely := ValidateVersionAndTime(s.mem, req.items, env.validation);
            && (rc == EpochMismatch <==> Good(env.admission) && ctx.epoch != env.epoch)
            && (rc == AdmissionRejected <==>
                  || (Good(env.admission) && ctx.epoch == env.epoch && Upper(env.admission) >= ctx.expireAt)
                  || (early && covered && timely == Success && Good(env.lastCheck)
                      && Upper(env.lastCheck) >= ctx.expireAt))
            && (rc == NotReady <==>
                  || !Good(env.admission)
                  || (early && covered && !env.validation.trusted)
                  || (early && covered && timely == Success && !Good(env.lastCheck)))
            && (early && !covered ==> rc == WrappedKeyInvalid)
  {
    VersionCodes(s.mem, req.items, env.validation);
    hide ValidateVersionAndTime;
  }

  lemma VersionCodes(m: Image, items: seq<Item>, t: Sample)
    ensures ValidateVersionAndTime(m, items, t) in {Success, NotReady, Conflict, WrappedKeyInvalid}
    ensures ValidateVersionAndTime(m, items, t) == NotReady <==> !t.trusted
  {
    if ValidateVersionAndTime(m, items, t) != Success { var k := VersionAndTimeRefuses(m, items, t); }
  }
}
