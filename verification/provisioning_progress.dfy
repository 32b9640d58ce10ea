/** What happens when nothing goes wrong with the store: exactly which requests succeed, and
    a run in which recovery credits a request with another request's batch. */
module ProvisioningProgress {
  import opened Wrappers
  import opened ProviderState
  import opened Provisioning
  import opened ProvisioningInvariants
  import opened ProvisioningCalls
  import opened ProvisioningRecovery
  import opened ProvisioningRuns
  import opened ProvisioningTheorems
  import opened ProvisioningVerdicts

  /** The provider is running and no save will fail. */
  ghost predicate Healthy(s: State) { s.alive && s.script == [] }

  /** The security module opens every item as announced, so the batch can be committed. */
  ghost predicate Opens(req: Request, env: Env)
    requires Shaped(req, env)
  {
    forall i :: 0 <= i < |req.items| ==>
      UnwrapCode(req.items[i], env.unwraps[i]) == Success && !env.cipherFaults[i]
  }

  /** The security module opens every item as announced and signs every proof. */
  ghost predicate Sound(req: Request, env: Env)
    requires Shaped(req, env)
  {
    forall i :: 0 <= i < |req.items| ==>
      UnwrapCode(req.items[i], env.unwraps[i]) == Success && !env.cipherFaults[i]
      && env.proofs[i].Some? && |env.proofs[i].value| == 64
  }

  lemma SaveWorks(s: State)
    requires Healthy(s)
    ensures var (t, rc) := SaveState(s); Healthy(t) && rc == Success && t.mem == s.mem && t.commits == s.commits
  {
  }

  lemma SavedHealthy(s: State, e: Entry)
    requires Healthy(s)
    ensures var t := SaveJournal(s, e).0; Healthy(t) && t.commits == s.commits
  {
    hide SaveState;
    SaveWorks(s.(mem := s.mem.(journal := s.mem.journal[e.rid := e])));
  }

  lemma HealthyStage(s: State, e: Entry, req: Request, env: Env, i: nat)
    requires Healthy(s) && Shaped(req, env) && i <= |req.items|
    ensures var r := StageFrom(s, e, req, env, i);
            && (r.Going? <==> forall j :: i <= j < |req.items| ==> UnwrapCode(req.items[j], env.unwraps[j]) == Success)
            && (r.Going? ==> Healthy(r.s))
            && (r.Ended? ==> r.o.code != Success)
    decreases |req.items| - i
  {
    hide SaveState, RollbackStaging;
    if i < |req.items| {
      var (s1, rc) := UnwrapToStaging(s, req.items[i], e.generation, env.unwraps[i]);
      if UnwrapCode(req.items[i], env.unwraps[i]) == Success {
        SaveWorks(s.(mem := WithStaged(s.mem, req.items[i], e.generation, env.unwraps[i].key)));
        var e1 := if req.items[i].purpose == UplinkAead then e.(phase := UplinkStaged) else e;
        SavedHealthy(s1, e1);
        HealthyStage(SaveJournal(s1, e1).0, e1, req, env, i + 1);
      }
    }
  }

  lemma StagedVerifies(m: Image, req: Request, env: Env, generation: nat, i: nat)
    requires Shaped(req, env) && i <= |req.items| && StagedUpTo(m, req, env, generation, |req.items|)
    requires forall j :: 0 <= j < |req.items| ==> UnwrapCode(req.items[j], env.unwraps[j]) == Success
    ensures VerifyFrom(m, req, env, i) == Success <==> forall j :: i <= j < |req.items| ==> !env.cipherFaults[j]
    decreases |req.items| - i
  {
    if i < |req.items| {
      var p := req.items[i].purpose;
      assert m.staging[p] == StagedSlot(req.items[i], generation, env.unwraps[i].key);
      assert VerifyStaging(m, p, env.cipherFaults[i]) == if env.cipherFaults[i] then WrappedKeyInvalid else Success;
      StagedVerifies(m, req, env, generation, i + 1);
    }
  }

  lemma ProofsFromBatch(m: Image, req: Request, env: Env, generation: nat, e: Entry)
    requires Shaped(req, env) && StagedUpTo(m, req, env, generation, |req.items|)
    requires |e.items| == |req.items|
    requires forall i :: 0 <= i < |e.items| ==>
               e.items[i].purpose == req.items[i].purpose && e.items[i].version == req.items[i].version
    ensures ProofsMade(AfterCommit(m), e, env) <==>
              forall i :: 0 <= i < |req.items| ==> env.proofs[i].Some? && |env.proofs[i].value| == 64
  {
    forall i | 0 <= i < |e.items|
      ensures GenerateProof(AfterCommit(m), e.items[i].purpose, e.items[i].version, env.proofs[i]).Some?
              <==> env.proofs[i].Some? && |env.proofs[i].value| == 64
    {
      assert m.staging[req.items[i].purpose] == StagedSlot(req.items[i], generation, env.unwraps[i].key);
    }
  }

  lemma HealthyFinish(s: State, e: Entry, env: Env, now: int)
    requires Healthy(s) && |e.items| == |env.proofs| == |env.unwraps|
    ensures var (t, o) := Finish(s, e, env, now);
            Healthy(t) && t.commits == s.commits && (o.code == Success <==> ProofsMade(s.mem, e, env))
  {
    hide SaveState, FinishStatus, ProofsMade, UpdateLedger;
    var e1 := Finished(s.mem, e, env, now);
    var e2 := e1.(phase := OutcomeUnknown, lastError := AttestationFailed);
    SavedHealthy(s, e1);
    SavedHealthy(s, e2);
    LedgerKeeps(SaveJournal(s, e1).0, e1, e1.generation, 0);
    LedgerHealthy(SaveJournal(s, e1).0, e1, e1.generation, 0);
  }

  lemma HealthyCommit(s0: State, s: State, e: Entry, e1: Entry, req: Request, env: Env, now: int)
    requires Healthy(s) && Shaped(req, env) && Admitted(s0, req) && WellFormed(req)
    requires e == NewEntry(req, s0.mem.generation + 1, now) && e1 == e.(phase := e1.phase)
    requires Staging(s0, s, e, e1, req, env, 2)
    ensures CommitPhase(s, e1, env, now).1.code == Success <==>
              forall i :: 0 <= i < |req.items| ==> env.proofs[i].Some? && |env.proofs[i].value| == 64
    ensures var t := CommitPhase(s, e1, env, now).0; Healthy(t) && t.commits != s.commits
  {
    hide Inv, Uncommitted, BatchOf, SaveState, MayCommit, Admitted, ProofsMade, Finish, Healthy, CommitBatch, EndOn;
    var e2 := e1.(phase := Committing);
    var s1 := SaveJournal(s, e2).0;
    SameRequestAnyPhase(e1, e2, e);
    StageStep(s0, s, e, e1, e2, req, env, 2);
    SavedHealthy(s, e2);
    StagedBatch(s0, s1, e, e2, req, env, now);
    CommitKeeps(s1, e.rid);
    HealthyCommits(s1, e.rid);
    ProofsFromBatch(s1.mem, req, env, e.generation, e2);
    HealthyFinish(CommitBatch(s1, e.generation, e.rid).0, e2, env, now);
  }

  lemma LedgerHealthy(s: State, e: Entry, generation: nat, i: nat)
    requires Healthy(s) && i <= |e.items|
    ensures Healthy(UpdateLedger(s, e, generation, i))
    decreases |e.items| - i
  {
  }

  lemma HealthyCommits(s: State, owner: Rid)
    requires Inv(s) && Healthy(s) && MayCommit(s, owner)
    ensures var (t, rc) := CommitBatch(s, s.mem.generation + 1, owner); rc == Success && Healthy(t)
  {
    hide Inv, CommittedBy, ItemsMatch, Rises, CommitBatch;
    StagedKeys(s, owner);
    CommitUnfolds(s, owner);
  }

  lemma BeforeCommit(s0: State, s: State, e: Entry)
    requires Before(s0, s, e)
    ensures s.commits == s0.commits
  {
  }

  lemma HealthyPipeline(s: State, req: Request, env: Env, now: int)
    requires Healthy(s) && Shaped(req, env) && Admitted(s, req) && WellFormed(req)
    ensures var (t, o) := RunPipeline(s, req, env, s.mem.generation + 1, now);
            && (o.code == Success <==> Sound(req, env)) && (o.code == Success ==> Healthy(t))
            && (Opens(req, env) ==> Healthy(t) && t.commits != s.commits)
  {
    hide Inv, Uncommitted, SaveState, SaveJournal, MayCommit, Admitted, UnwrapCode, VerifyFrom, CommitPhase, StageFrom,
         Healthy, KeySize;
    var e := NewEntry(req, s.mem.generation + 1, now);
    var s1 := SaveJournal(s, e).0;
    SavedHealthy(s, e);
    StartKeeps(s, req, env, now);
    StageFromKeeps(s, s1, e, e, req, env, 0);
    HealthyStage(s1, e, req, env, 0);
    match StageFrom(s1, e, req, env, 0)
    case Ended(_, _) =>
    case Going(s2, e2) =>
      var e3 := e2.(phase := BothStaged);
      var s3 := SaveJournal(s2, e3).0;
      StageStep(s, s2, e, e2, e3, req, env, 2);
      SavedHealthy(s2, e3);
      StagedVerifies(s3.mem, req, env, e.generation, 0);
      BeforeCommit(s, s3, e);
      if VerifyFrom(s3.mem, req, env, 0) == Success { HealthyCommit(s, s3, e, e3, req, env, now); }
  }

  /** With a store that works, a request the journal does not know succeeds exactly when the
      checks before the journal pass, its versions are new, its validity covers the trusted
      time, and the security module opens every item and signs every proof. Leftovers of an
      earlier request in the staging do not matter. */
  lemma HealthyImportSucceeds(s: State, req: Request, env: Env)
    requires Inv(s) && Healthy(s) && Shaped(req, env) && RidOf(req.requestId) !in s.mem.journal
    ensures Import(s, req, env).1.code == Success <==>
              PreCheck(req, env) == Success
              && ValidateVersionAndTime(s.mem, req.items, env.validation) == Success && Sound(req, env)
    ensures Import(s, req, env).1.code == Success ==> Healthy(Import(s, req, env).0)
  {
    hide Inv, RunPipeline, PreCheck, ValidateVersionAndTime, Admitted, Sound, NextGeneration;
    if PreCheck(req, env) == Success && ValidateVersionAndTime(s.mem, req.items, env.validation) == Success {
      Admission(s, req, env);
      AdmittedFacts(s, req);
      HealthyPipeline(s, req, env, NowMs(env.start));
    }
  }

  /** The same for KL1, as a whole: with a store that works, a request the journal does not
      know succeeds exactly when the checks before the journal pass, nothing was ever committed,
      nothing is staged, no ledger row names the request, the admission checks pass, and the
      security module opens every item and signs every proof. */
  lemma HealthyKl1ImportSucceeds(s: State, req: Request, ctx: Kl1Context, env: Env)
    requires Inv(s) && Healthy(s) && Shaped(req, env) && RidOf(req.requestId) !in s.mem.journal
    ensures ImportKl1(s, req, ctx, env).1.code == Success <==>
      && Kl1PreCheck(req, ctx, env) == Success
      && s.commits == [] && s.mem.staging == map[]
      && (forall p :: p in REQUIRED && p in s.ledger ==> s.ledger[p].rid != RidOf(req.requestId))
      && Kl1Admission(s, req, ctx, env) == Success && Sound(req, env)
  {
    hide Inv, RunPipeline, PreCheck, ValidateVersionAndTime, Admitted, Sound, NextGeneration, LeaseCode, ItemsCover,
         HasTransactionResidue;
    ResidueExactly(s);
    if Kl1PreCheck(req, ctx, env) == Success && Kl1Admission(s, req, ctx, env) == Success {
      Admission(s, req, env);
      AdmittedFacts(s, req);
      HealthyPipeline(s, req, env, NowMs(env.start));
    }
  }

  // ---- admission and the ledger ----

  /** The version and time check passes exactly when the time is trusted, every item is newer
      than the active slot it would replace, and the time lies in every validity interval. */
  lemma VersionAndTimeAccepts(m: Image, items: seq<Item>, t: Sample)
    ensures ValidateVersionAndTime(m, items, t) == Success <==>
      t.trusted && forall it :: it in items ==>
        (it.purpose in m.active ==> m.active[it.purpose].version < it.version) && it.validFrom <= t.utc <= it.validTo
  {
    if t.trusted { VersionAndTimeFromAccepts(m, items, t.utc, 0); }
    assert items[0..] == items;
  }

  lemma {:induction false} VersionAndTimeFromAccepts(m: Image, items: seq<Item>, now: int, i: nat)
    requires i <= |items|
    ensures VersionAndTimeFrom(m, items, now, i) == Success <==>
      forall it :: it in items[i..] ==>
        (it.purpose in m.active ==> m.active[it.purpose].version < it.version) && it.validFrom <= now <= it.validTo
    decreases |items| - i
  {
    if i < |items| {
      assert items[i..] == [items[i]] + items[i + 1..];
      VersionAndTimeFromAccepts(m, items, now, i + 1);
    }
  }

  /** A new KL1 operation is admitted exactly when both lease checks see a good sample whose
      upper end is before the deadline under the current epoch, items and certificate cover
      the time from the first upper end to the deadline, and the ordinary checks pass. */
  lemma Kl1AdmitsExactly(s: State, req: Request, ctx: Kl1Context, env: Env)
    ensures Kl1Admission(s, req, ctx, env) == Success <==>
      && Good(env.admission) && Good(env.lastCheck) && ctx.epoch == env.epoch
      && Upper(env.admission) < ctx.expireAt && Upper(env.lastCheck) < ctx.expireAt
      && (forall it :: it in req.items ==> it.validFrom <= Upper(env.admission) && ctx.expireAt <= it.validTo)
      && env.certValidFrom <= Upper(env.admission) && ctx.expireAt <= env.certValidTo
      && env.validation.trusted
      && (forall it :: it in req.items ==>
            (it.purpose in s.mem.active ==> s.mem.active[it.purpose].version < it.version)
            && it.validFrom <= env.validation.utc <= it.validTo)
  {
    VersionAndTimeAccepts(s.mem, req.items, env.validation);
    hide ValidateVersionAndTime;
  }

  ghost predicate Good(t: Sample) { t.trusted && t.uncertainty <= 1000 && t.freshness <= 300000 }

  ghost function Upper(t: Sample): int { t.utc + t.uncertainty }

  function RowOf(e: Entry, j: nat, generation: nat): LedgerRow
    requires j < |e.items|
  {
    var it := e.items[j];
    LedgerRow(it.version, Digest(it.keyId), it.algorithm, it.validFrom, it.validTo, generation, e.rid, e.createdAt,
              e.committedAt)
  }

  lemma {:induction false} LedgerTakesRows(s: State, e: Entry, generation: nat, i: nat)
    requires i <= |e.items|
    requires forall j, k :: 0 <= j < k < |e.items| ==> e.items[j].purpose != e.items[k].purpose
    ensures var t := UpdateLedger(s, e, generation, i);
            && (forall j :: i <= j < |e.items| ==>
                  e.items[j].purpose in t.ledger && t.ledger[e.items[j].purpose] == RowOf(e, j, generation))
            && (forall p :: p in s.ledger && (forall j :: i <= j < |e.items| ==> e.items[j].purpose != p) ==>
                  p in t.ledger && t.ledger[p] == s.ledger[p])
    decreases |e.items| - i
  {
    if i < |e.items| {
      LedgerTakesRows(LedgerPut(s, e.items[i].purpose, RowOf(e, i, generation)), e, generation, i + 1);
    }
  }

  /** Whoever sees the SUCCESS of a first import finds, in the ledger's memory, one row per
      purpose with the item's metadata, the new generation, this request and the times of the
      journal entry. */
  lemma SuccessIsInLedger(s: State, req: Request, env: Env)
    requires Inv(s) && Shaped(req, env) && RidOf(req.requestId) !in s.mem.journal
    requires Import(s, req, env).1.code == Success
    ensures var (t, o) := Import(s, req, env);
            forall j :: 0 <= j < |req.items| ==>
              req.items[j].purpose in t.ledger
              && t.ledger[req.items[j].purpose] ==
                   LedgerRow(req.items[j].version, Digest(req.items[j].keyId), req.items[j].algorithm,
                             req.items[j].validFrom, req.items[j].validTo, |s.commits| + 1, RidOf(req.requestId),
                             NowMs(env.start), o.committedAt)
  {
    hide Inv, RunPipeline, PreCheck, ValidateVersionAndTime, Admitted, WellFormed, NextGeneration;
    Admission(s, req, env);
    AdmittedFacts(s, req);
    PipelineLedger(s, req, env, NextGeneration(s.mem), NowMs(env.start));
  }

  lemma PipelineLedger(s: State, req: Request, env: Env, generation: nat, now: int)
    requires Shaped(req, env) && Admitted(s, req)
    requires RunPipeline(s, req, env, generation, now).1.code == Success
    ensures var (t, o) := RunPipeline(s, req, env, generation, now);
            forall j :: 0 <= j < |req.items| ==>
              req.items[j].purpose in t.ledger
              && t.ledger[req.items[j].purpose] ==
                   LedgerRow(req.items[j].version, Digest(req.items[j].keyId), req.items[j].algorithm,
                             req.items[j].validFrom, req.items[j].validTo, generation, RidOf(req.requestId), now,
                             o.committedAt)
  {
    DistinctPurposes(s, req);
    var s3, e3 := SuccessCommits(s, req, env, generation, now);
    hide Inv, RunPipeline, CommitPhase, Admitted, RowOf, NewEntry;
    NewEntrySize(req, generation, now);
    CommitPhaseLedger(s3, e3, env, now);
    var o := RunPipeline(s, req, env, generation, now).1;
    RowOfNew(req, e3.(committedAt := o.committedAt), generation, now, 0);
    RowOfNew(req, e3.(committedAt := o.committedAt), generation, now, 1);
  }

  lemma NewEntrySize(req: Request, generation: nat, now: int)
    requires |req.envelopeDigests| == |req.items|
    ensures var e := NewEntry(req, generation, now);
            |e.items| == |req.items| && e.generation == generation
            && forall j :: 0 <= j < |req.items| ==> e.items[j].purpose == req.items[j].purpose
  {
  }

  /** A successful pipeline has reached the commit phase with its own entry. */
  lemma SuccessCommits(s: State, req: Request, env: Env, generation: nat, now: int) returns (s3: State, e3: Entry)
    requires Shaped(req, env) && RunPipeline(s, req, env, generation, now).1.code == Success
    ensures e3 == NewEntry(req, generation, now).(phase := BothStaged)
    ensures RunPipeline(s, req, env, generation, now) == CommitPhase(s3, e3, env, now)
  {
    hide SaveState, SaveJournal, RollbackStaging, CommitPhase, StageFrom, VerifyFrom, Abandon;
    var e := NewEntry(req, generation, now);
    var s1 := SaveJournal(s, e).0;
    EndedFails(s1, e, req, env, 0);
    match StageFrom(s1, e, req, env, 0)
    case Ended(_, _) =>
    case Going(s2, e2) =>
      e3 := e2.(phase := BothStaged);
      s3 := SaveJournal(s2, e3).0;
      VerifyFails(s3, req, env, e3);
  }

  lemma RowOfNew(req: Request, e: Entry, generation: nat, now: int, j: nat)
    requires |req.envelopeDigests| == |req.items| && j < |req.items|
    requires e == NewEntry(req, generation, now).(phase := e.phase, committedAt := e.committedAt)
    ensures RowOf(e, j, generation) ==
              LedgerRow(req.items[j].version, Digest(req.items[j].keyId), req.items[j].algorithm,
                        req.items[j].validFrom, req.items[j].validTo, generation, RidOf(req.requestId), now,
                        e.committedAt)
    ensures e.items[j].purpose == req.items[j].purpose
  {
  }

  lemma VerifyFails(s: State, req: Request, env: Env, e: Entry)
    requires Shaped(req, env)
    ensures var rc := VerifyFrom(s.mem, req, env, 0); rc != Success ==> Abandon(s, e, rc).1.code != Success
  {
  }

  lemma CommitPhaseLedger(s: State, e: Entry, env: Env, now: int)
    requires |e.items| == |env.proofs| == |env.unwraps| == 2 && e.items[0].purpose != e.items[1].purpose
    requires CommitPhase(s, e, env, now).1.code == Success
    ensures var (t, o) := CommitPhase(s, e, env, now);
            forall j :: 0 <= j < 2 ==>
              e.items[j].purpose in t.ledger
              && t.ledger[e.items[j].purpose] == RowOf(e.(committedAt := o.committedAt), j, e.generation)
  {
    hide SaveState, SaveJournal, RollbackStaging, CommitBatch, UpdateLedger, ProofsMade, GenerateProof;
    var e1 := e.(phase := Committing);
    var s1 := CommitBatch(SaveJournal(s, e1).0, e1.generation, e1.rid).0;
    var e2 := Finished(s1.mem, e1, env, now);
    assert e2.items[0] == FinishStatus(s1.mem, e1.items[0], env, 0);
    assert e2.items[1] == FinishStatus(s1.mem, e1.items[1], env, 1);
    LedgerTakesRows(SaveJournal(s1, e2).0, e2, e.generation, 0);
    assert CommitPhase(s, e, env, now) ==
      (Provisioning.UpdateLedger(SaveJournal(s1, e2).0, e2, e.generation, 0), CommittedResult(e2));
    assert RowOf(e2, 0, e.generation) == RowOf(e.(committedAt := e2.committedAt), 0, e.generation);
    assert RowOf(e2, 1, e.generation) == RowOf(e.(committedAt := e2.committedAt), 1, e.generation);
  }

  lemma DistinctPurposes(s: State, req: Request)
    requires Admitted(s, req)
    ensures |req.items| == 2 && req.items[0].purpose != req.items[1].purpose
  {
  }

  lemma EndedFails(s: State, e: Entry, req: Request, env: Env, i: nat)
    requires Shaped(req, env) && i <= |req.items|
    ensures var r := StageFrom(s, e, req, env, i); r.Ended? ==> r.o.code != Success
    decreases |req.items| - i
  {
    hide SaveState, UnwrapToStaging, SaveJournal, RollbackStaging;
    if i < |req.items| {
      var (s1, rc) := UnwrapToStaging(s, req.items[i], e.generation, env.unwraps[i]);
      if rc == Success {
        var e1 := if req.items[i].purpose == UplinkAead then e.(phase := UplinkStaged) else e;
        EndedFails(SaveJournal(s1, e1).0, e1, req, env, i + 1);
      }
    }
  }

  // ---- recovery credits the wrong request ----

  lemma VersionsSeeActiveOnly(m: Image, n: Image, items: seq<Item>, now: int, i: nat)
    requires m.active == n.active && i <= |items|
    ensures VersionAndTimeFrom(m, items, now, i) == VersionAndTimeFrom(n, items, now, i)
    decreases |items| - i
  {
    if i < |items| { VersionsSeeActiveOnly(m, n, items, now, i + 1); }
  }

  /** What a refused save of the first unwrapped key leaves: an open entry under the next
      generation, and a provider that still runs. */
  lemma RefusedUnwrapStaysOpen(s: State, req: Request, env: Env, now: int)
    requires s.alive && s.script == [Saved, Refused] && Shaped(req, env) && |req.items| == 2
    requires UnwrapCode(req.items[0], env.unwraps[0]) == Success
    ensures var (t, o) := RunPipeline(s, req, env, s.mem.generation + 1, now);
            var rid := RidOf(req.requestId);
            && o.code == OutcomeUnknownCode && t.alive && t.commits == s.commits && t.mem.active == s.mem.active
            && rid in t.mem.journal && !Terminal(t.mem.journal[rid].phase)
            && t.mem.journal[rid].requestDigest == req.digest
            && t.mem.journal[rid].generation == s.mem.generation + 1
            && t.mem.journal[rid].items == NewEntry(req, s.mem.generation + 1, now).items
  {
    var e := NewEntry(req, s.mem.generation + 1, now);
    var s1 := SaveJournal(s, e).0;
    assert s1.alive && s1.script == [Refused];
    hide UnwrapCode;
    var (s2, rc) := UnwrapToStaging(s1, req.items[0], e.generation, env.unwraps[0]);
    assert rc == StorageWriteFailed && s2.alive && s2.script == [];
    assert StageFrom(s1, e, req, env, 0) == Ended(Suspend(s2, e, FromCode(rc)).0, Answer(OutcomeUnknownCode, Unknown));
  }

  /** Without the discipline recovery can be wrong. Request `a` is left open by one refused
      save; request `b` then commits under the same generation number; replaying `a` is
      answered SUCCESS with the items of `a`, although no batch of `a` was ever committed. */
  lemma WrongRequestCredited(s: State, a: Request, b: Request, env1: Env, env2: Env, env3: Env)
    requires Inv(s) && s.alive && Shaped(a, env1) && Shaped(b, env2) && Shaped(a, env3)
    requires RidOf(a.requestId) !in s.mem.journal && RidOf(b.requestId) !in s.mem.journal
    requires a.requestId != b.requestId
    requires PreCheck(a, env1) == Success && PreCheck(b, env2) == Success && PreCheck(a, env3) == Success
    requires ValidateVersionAndTime(s.mem, a.items, env1.validation) == Success
    requires ValidateVersionAndTime(s.mem, b.items, env2.validation) == Success
    requires UnwrapCode(a.items[0], env1.unwraps[0]) == Success && Sound(b, env2)
    ensures var first := Take(s, DoImport(a, env1, [Saved, Refused])).0;
            first.alive &&
            var (second, o2) := Take(first, DoImport(b, env2, []));
            second.alive && o2.code == Success &&
            var (third, o3) := Take(second, DoImport(a, env3, []));
            && o3.code == Success && o3.state == Committed
            && !CommittedBy(third.commits, RidOf(a.requestId))
  {
    hide Inv, RunPipeline, PreCheck, Admitted, Sound, NextGeneration, UnwrapCode, Resume, BatchOf, Progressed,
         CommittedBy, Import, ItemsCode, VersionAndTimeFrom;
    var s1 := Take(s, DoImport(a, env1, [Saved, Refused])).0;
    FirstCallStaysOpen(s, a, env1);
    var s2 := Take(s1, DoImport(b, env2, [])).0;
    VersionsSeeActiveOnly(s.mem, s1.mem, b.items, env2.validation.utc, 0);
    SecondCallCommits(s1, b, env2);
    ReplayIsCredited(s1, s2, a, b, env3);
  }

  lemma FirstCallStaysOpen(s: State, req: Request, env: Env)
    requires Inv(s) && s.alive && Shaped(req, env) && RidOf(req.requestId) !in s.mem.journal
    requires PreCheck(req, env) == Success && ValidateVersionAndTime(s.mem, req.items, env.validation) == Success
    requires UnwrapCode(req.items[0], env.unwraps[0]) == Success
    ensures var t := Take(s, DoImport(req, env, [Saved, Refused])).0;
            var rid := RidOf(req.requestId);
            && Inv(t) && t.alive && t.commits == s.commits && t.mem.active == s.mem.active
            && t.mem.journal.Keys == s.mem.journal.Keys + {rid} && !Terminal(t.mem.journal[rid].phase)
            && t.mem.journal[rid].requestDigest == req.digest
            && t.mem.journal[rid].generation == |t.commits| + 1
            && t.mem.journal[rid].items == NewEntry(req, s.mem.generation + 1, NowMs(env.start)).items
  {
    hide Inv, RunPipeline, PreCheck, ValidateVersionAndTime, Admitted, NextGeneration, UnwrapCode, BatchOf, Progressed;
    var s0 := s.(script := [Saved, Refused]);
    ScriptIrrelevant(s, [Saved, Refused]);
    Admission(s0, req, env);
    AdmittedFacts(s0, req);
    AdmittedShape(s0, req);
    RefusedUnwrapStaysOpen(s0, req, env, NowMs(env.start));
    ImportEffect(s0, req, env);
  }

  lemma AdmittedShape(s: State, req: Request)
    requires Admitted(s, req)
    ensures |req.items| == 2
  {
  }

  lemma SecondCallCommits(s: State, req: Request, env: Env)
    requires Inv(s) && s.alive && Shaped(req, env) && RidOf(req.requestId) !in s.mem.journal
    requires PreCheck(req, env) == Success && ValidateVersionAndTime(s.mem, req.items, env.validation) == Success
    requires Sound(req, env)
    ensures var (t, o) := Take(s, DoImport(req, env, []));
            && o.code == Success && Inv(t) && t.alive
            && t.commits == s.commits + [Commit(RidOf(req.requestId), |s.commits| + 1, t.mem.active)]
            && (forall r :: r in s.mem.journal && r != RidOf(req.requestId) ==>
                  r in t.mem.journal && t.mem.journal[r] == s.mem.journal[r])
  {
    hide Inv, PreCheck, ValidateVersionAndTime, Import, Sound, BatchOf, Progressed, SameRequest;
    var s0 := s.(script := []);
    ScriptIrrelevant(s, []);
    HealthyImportSucceeds(s0, req, env);
    ImportEffect(s0, req, env);
  }

  lemma ReplayIsCredited(s1: State, s2: State, a: Request, b: Request, env: Env)
    requires Inv(s1) && Inv(s2) && s2.alive && Shaped(a, env) && PreCheck(a, env) == Success
    requires var rid := RidOf(a.requestId);
             && rid in s1.mem.journal && rid in s2.mem.journal && s2.mem.journal[rid] == s1.mem.journal[rid]
             && !Terminal(s1.mem.journal[rid].phase) && s1.mem.journal[rid].requestDigest == a.digest
             && s1.mem.journal[rid].generation == |s1.commits| + 1
    requires RidOf(b.requestId) != RidOf(a.requestId)
    requires s2.commits == s1.commits + [Commit(RidOf(b.requestId), |s1.commits| + 1, s2.mem.active)]
    ensures var (t, o) := Take(s2, DoImport(a, env, []));
            && o.code == Success && o.state == Committed
            && !CommittedBy(t.commits, RidOf(a.requestId))
  {
    hide Inv, PreCheck, RunPipeline, RecoverEntry, BatchOf, SameRequest, CommittedBy;
    var rid := RidOf(a.requestId);
    var s := s2.(script := []);
    ScriptIrrelevant(s2, []);
    LastGeneration(s);
    RecoverKeeps(s, rid, NowMs(env.recovery));
    OwnCommit(s, rid);
  }

  // ---- one concrete run ----

  function SampleItem(p: Purpose, keyId: string): Item {
    Item(p, keyId, 1, ALGORITHM, SUITE, true, 48, 65, 32, 1, 10, [7, 7, 7], true)
  }

  function SampleRequest(requestId: string): Request {
    Request(requestId, DOMAIN, [SampleItem(UplinkAead, "up"), SampleItem(DownlinkAead, "down")], [[1], [2]], requestId)
  }

  function SampleEnv(): Env {
    var u := Opened(seq(32, _ => 0), [7, 7, 7]);
    var proof := Some(seq(64, _ => 1));
    var t := Sample(true, 5, 0, 0);
    Env(true, true, Success, [], 0, 10, 1, [u, u], [false, false], [proof, proof], t, t, t, t, t, t)
  }

  lemma SamplePasses(requestId: string)
    requires 1 <= |requestId| <= 128
    ensures Shaped(SampleRequest(requestId), SampleEnv()) && PreCheck(SampleRequest(requestId), SampleEnv()) == Success
    ensures Sound(SampleRequest(requestId), SampleEnv())
    ensures ValidateVersionAndTime(EMPTY_IMAGE, SampleRequest(requestId).items, SampleEnv().validation) == Success
  {
    var req := SampleRequest(requestId);
    var up, down := SampleItem(UplinkAead, "up"), SampleItem(DownlinkAead, "down");
    assert up in req.items && down in req.items;
    assert PurposesOf(req.items) == REQUIRED;
    assert "up"[0] != "down"[0];
    StructureAccepts(req);
    assert VersionAndTimeFrom(EMPTY_IMAGE, req.items, 5, 2) == Success;
    assert VersionAndTimeFrom(EMPTY_IMAGE, req.items, 5, 1) == Success;
  }

  /** The wrong verdict is reachable from a factory-fresh provider in three calls: request
      "a" is answered SUCCESS although only request "b" was ever committed. */
  lemma WrongRequestCreditedFromScratch()
    ensures var env := SampleEnv();
            var (a, b) := (SampleRequest("a"), SampleRequest("b"));
            Shaped(a, env) && Shaped(b, env) &&
            var first := Take(INITIAL, DoImport(a, env, [Saved, Refused])).0;
            first.alive &&
            var second := Take(first, DoImport(b, env, [])).0;
            second.alive &&
            var (third, o) := Take(second, DoImport(a, env, []));
            o.code == Success && o.state == Committed && !CommittedBy(third.commits, RidOf("a"))
  {
    hide Inv, SampleEnv, Import, PreCheck, ValidateVersionAndTime, Sound, CommittedBy;
    InitialGood();
    SamplePasses("a");
    SamplePasses("b");
    FirstOpens("a");
    assert "a"[0] != "b"[0];
    var env := SampleEnv();
    WrongRequestCredited(INITIAL, SampleRequest("a"), SampleRequest("b"), env, env, env);
  }

  lemma FirstOpens(requestId: string)
    requires Sound(SampleRequest(requestId), SampleEnv())
    ensures UnwrapCode(SampleRequest(requestId).items[0], SampleEnv().unwraps[0]) == Success
  {
  }

  // ---- a FAILED answer that is forgotten ----

  function FailingEnv(): Env {
    SampleEnv().(unwraps := [Rejected(WrappedKeyInvalid), Rejected(WrappedKeyInvalid)])
  }

  lemma FailingPasses(requestId: string)
    requires 1 <= |requestId| <= 128
    ensures Shaped(SampleRequest(requestId), FailingEnv())
    ensures PreCheck(SampleRequest(requestId), FailingEnv()) == Success
    ensures ValidateVersionAndTime(EMPTY_IMAGE, SampleRequest(requestId).items, FailingEnv().validation) == Success
    ensures UnwrapCode(SampleRequest(requestId).items[0], FailingEnv().unwraps[0]) == WrappedKeyInvalid
  {
    SamplePasses(requestId);
    hide ValidateStructure, ValidateVersionAndTime;
  }

  /** A rejected unwrap while every save is refused closes the request in memory only. */
  lemma RefusedFailure(s: State, req: Request, env: Env, generation: nat, now: int)
    requires s.alive && s.script == [Refused, Refused, Refused] && Shaped(req, env) && |req.items| > 0
    requires UnwrapCode(req.items[0], env.unwraps[0]) == WrappedKeyInvalid && s.mem.stagingGeneration == 0
    ensures var (t, o) := RunPipeline(s, req, env, generation, now);
            && o.state == ImportFailed && t.alive && t.disk == s.disk && IsFailed(t.mem, RidOf(req.requestId))
  {
    hide UnwrapCode;
    var e := NewEntry(req, generation, now);
    var s1 := SaveJournal(s, e).0;
    assert s1.alive && s1.script == [Refused, Refused];
    var s2 := RollbackStaging(s1, generation).0;
    assert s2.alive && s2.script == [Refused];
    assert StageFrom(s1, e, req, env, 0) ==
      Ended(Abandon(s1, e, WrappedKeyInvalid).0, Answer(WrappedKeyInvalid, ImportFailed));
  }

  /** The forgetting is reachable: from a fresh provider one call is answered as failed, and some
      further run ends with the request FAILED no more. */
  lemma FailedCanBeForgotten(requestId: string)
    requires 1 <= |requestId| <= 128
    ensures var (req, env) := (SampleRequest(requestId), FailingEnv());
            var rid := RidOf(requestId);
            Shaped(req, env) &&
            var (t, o) := Take(INITIAL, DoImport(req, env, [Refused, Refused, Refused]));
            && t.alive && o.state == ImportFailed && IsFailed(t.mem, rid) && rid !in t.disk.journal
            && exists later :: Feasible(t, later) && !IsFailed(StateAfter(t, later).mem, rid)
  {
    hide Inv, FailingEnv, RunPipeline, PreCheck, ValidateVersionAndTime, UnwrapCode, Feasible, StateAfter, Progressed;
    InitialGood();
    FailingPasses(requestId);
    var req := SampleRequest(requestId);
    var s := INITIAL.(script := [Refused, Refused, Refused]);
    RefusedFailure(s, req, FailingEnv(), NextGeneration(s.mem), NowMs(FailingEnv().start));
    var step := DoImport(req, FailingEnv(), [Refused, Refused, Refused]);
    StepKeeps(INITIAL, step);
    FailedIsFinalExactly(Take(INITIAL, step).0, RidOf(requestId));
  }
}
