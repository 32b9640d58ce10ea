/** The main results about the import transaction, over every run with every pattern of
    refused saves and power losses. */
module ProvisioningTheorems {
  import opened ProviderState
  import opened Provisioning
  import opened ProvisioningInvariants
  import opened ProvisioningCalls
  import opened ProvisioningRecovery
  import opened ProvisioningRuns

  // ---- every step, every run ----

  lemma ScriptIrrelevant(s: State, script: seq<SaveOutcome>)
    requires Inv(s)
    ensures Inv(s.(script := script)) && Progressed(s, s.(script := script))
  {
    ProgressedReflexive(s);
  }

  lemma ProgressedReflexive(s: State)
    ensures Progressed(s, s)
  {
    SameRequestReflexive();
  }

  lemma StepKeeps(s: State, step: Step)
    requires Inv(s) && Enabled(s, step)
    ensures Inv(Take(s, step).0) && Progressed(s, Take(s, step).0)
  {
    hide Inv, Progressed, Import, ImportKl1, Restart, Effect;
    match step
    case DoImport(req, env, script) =>
      var s1 := s.(script := script);
      ScriptIrrelevant(s, script);
      ImportEffect(s1, req, env);
      EffectProgresses(s1, Take(s, step).0, RidOf(req.requestId), Take(s, step).1);
      SameProgress(s, s1, Take(s, step).0);
    case DoImportKl1(req, ctx, env, script) =>
      var s1 := s.(script := script);
      ScriptIrrelevant(s, script);
      ImportKl1Effect(s1, req, ctx, env);
      EffectProgresses(s1, Take(s, step).0, RidOf(req.requestId), Take(s, step).1);
      SameProgress(s, s1, Take(s, step).0);
    case DoRestart(script, rids, clock) =>
      RestartProgresses(s, script, rids, clock);
  }

  lemma SameProgress(s: State, s1: State, t: State)
    requires s1 == s.(script := s1.script) && Progressed(s1, t)
    ensures Progressed(s, t)
  {
  }

  lemma ProgressedTransitive(s: State, t: State, u: State)
    requires Progressed(s, t) && Progressed(t, u)
    ensures Progressed(s, u)
  {
    hide SameRequest;
    forall r | r in s.disk.journal ensures SameRequest(u.disk.journal[r], s.disk.journal[r]) {
      SameRequestTransitive(u.disk.journal[r], t.disk.journal[r], s.disk.journal[r]);
    }
    forall r | r in s.mem.journal && s.mem.journal[r].phase == Succeeded
      ensures SameRequest(u.mem.journal[r], s.mem.journal[r])
    {
      SameRequestTransitive(u.mem.journal[r], t.mem.journal[r], s.mem.journal[r]);
    }
  }

  /** Over any run: the invariant holds at the end and nothing durable has gone back. */
  lemma {:induction false} RunKeeps(s: State, steps: seq<Step>)
    requires Inv(s) && Feasible(s, steps)
    ensures Inv(StateAfter(s, steps)) && Progressed(s, StateAfter(s, steps))
    decreases |steps|
  {
    hide Inv, Progressed, Take, Enabled;
    if steps == [] {
      ProgressedReflexive(s);
    } else {
      var t := Take(s, steps[0]).0;
      StepKeeps(s, steps[0]);
      RunKeeps(t, steps[1..]);
      ProgressedTransitive(s, t, StateAfter(t, steps[1..]));
    }
  }

  lemma InitialGood()
    ensures Inv(INITIAL)
  {
  }

  // ---- atomicity and recovery ----

  ghost predicate AllClosed(m: Image) {
    forall r :: r in m.journal ==> Terminal(m.journal[r].phase)
  }

  /** The active slots are nothing at all or the whole of one committed batch, and the
      commit marker is the one computed for them. */
  ghost predicate WholeBatch(s: State) {
    && (s.mem.active == map[] || (s.commits != [] && s.mem.active == s.commits[|s.commits| - 1].slots
          && GoodSlots(s.mem.active, |s.commits|)))
    && (s.mem.active != map[] ==> s.mem.marker == MarkerOf(s.mem.generation, s.mem.active))
    && (s.mem.active == map[] <==> s.commits == [])
  }

  /** From every state any run can reach, dead or alive, a restart leaves no open journal
      entry, nothing staged, and one whole batch active under its commit marker. */
  lemma EveryRestartConverges(steps: seq<Step>, script: seq<SaveOutcome>, rids: seq<Rid>, clock: seq<int>)
    requires Feasible(INITIAL, steps)
    requires Enabled(StateAfter(INITIAL, steps), DoRestart(script, rids, clock))
    ensures var s := StateAfter(INITIAL, steps);
            var t := Restart(s, script, rids, clock);
            AllClosed(t.mem) && t.mem.staging == map[] && t.mem.stagingGeneration == 0 && WholeBatch(t)
            && t.commits == s.commits
  {
    var s := StateAfter(INITIAL, steps);
    InitialGood();
    RunKeeps(INITIAL, steps);
    RestartSettles(s, script, rids, clock);
    WholeBatchHolds(Restart(s, script, rids, clock));
  }

  lemma WholeBatchHolds(t: State)
    requires Inv(t)
    ensures WholeBatch(t)
  {
    if t.commits != [] {
      assert GoodSlots(t.commits[|t.commits| - 1].slots, |t.commits|);
      assert UplinkAead in t.mem.active;
    }
  }

  ghost predicate IsImport(step: Step) { step.DoImport? || step.DoImportKl1? }

  function RequestOf(step: Step): Request
    requires IsImport(step)
  {
    step.req
  }

  function EnvOf(step: Step): Env
    requires IsImport(step)
  {
    step.env
  }

  /** An import and then a restart, with power lost wherever: the active slots are the full
      old batch, or the full batch of this request under the next generation with strictly
      newer versions. A first-time request that was told SUCCESS has the new batch; one that
      was told FAILED has the old. */
  lemma ImportIsAtomic(s: State, step: Step, script: seq<SaveOutcome>, rids: seq<Rid>, clock: seq<int>)
    requires Inv(s) && IsImport(step) && Enabled(s, step)
    requires Enabled(Take(s, step).0, DoRestart(script, rids, clock))
    ensures var (t, o) := Take(s, step);
            var u := Restart(t, script, rids, clock);
            && ((u.mem.active == s.mem.active && u.commits == s.commits) || NewBatch(s, u, step))
            && (o.code == Success && RidOf(RequestOf(step).requestId) !in s.mem.journal ==> NewBatch(s, u, step))
            && (o.state == ImportFailed ==> u.mem.active == s.mem.active)
  {
    hide Inv, Restart, Take, NewBatch;
    var (t, o) := Take(s, step);
    StepKeeps(s, step);
    CommitIsWholeBatch(s, step);
    RestartSettles(t, script, rids, clock);
    var u := Restart(t, script, rids, clock);
    SameGeneration(t, u);
    if t.commits == s.commits {
      SameGeneration(s, t);
    } else {
      NewBatchStays(s, t, u, step);
    }
  }

  lemma NewBatchStays(s: State, t: State, u: State, step: Step)
    requires IsImport(step) && Shaped(RequestOf(step), EnvOf(step)) && NewBatch(s, t, step)
    requires u.commits == t.commits && u.mem.active == t.mem.active && u.mem.generation == t.mem.generation
    ensures NewBatch(s, u, step)
  {
  }

  /** `u` has exactly one more commit than `s`: both slots are the request's items, the
      generation is one higher and each version is higher than the one it replaces. */
  ghost predicate NewBatch(s: State, u: State, step: Step)
    requires IsImport(step) && Shaped(RequestOf(step), EnvOf(step))
  {
    && u.commits == s.commits + [Commit(RidOf(RequestOf(step).requestId), s.mem.generation + 1, u.mem.active)]
    && BatchOf(u.mem.active, RequestOf(step), EnvOf(step), s.mem.generation + 1)
    && (forall p :: p in s.mem.active ==> p in u.mem.active && s.mem.active[p].version < u.mem.active[p].version)
    && u.mem.generation == s.mem.generation + 1
  }

  /** A call either commits nothing or makes one whole new batch active; the answer agrees. */
  lemma CommitIsWholeBatch(s: State, step: Step)
    requires Inv(s) && IsImport(step) && Enabled(s, step)
    ensures var (t, o) := Take(s, step);
            && (t.commits == s.commits || NewBatch(s, t, step))
            && (o.code == Success && t.commits == s.commits ==> RidOf(RequestOf(step).requestId) in s.mem.journal)
            && (o.state == ImportFailed ==> t.commits == s.commits)
  {
    hide Inv, Import, ImportKl1, BatchOf, Progressed;
    var s1 := s.(script := step.script);
    var (t, o) := Take(s, step);
    ScriptIrrelevant(s, step.script);
    match step {
      case DoImport(req, env, _) => ImportEffect(s1, req, env);
      case DoImportKl1(req, ctx, env, _) => ImportKl1Effect(s1, req, ctx, env);
    }
    if t.commits != s.commits {
      VersionsRose(s, t);
    }
  }

  lemma VersionsRose(s: State, t: State)
    requires Inv(s) && Inv(t) && |t.commits| == |s.commits| + 1 && s.commits <= t.commits
    ensures forall p :: p in s.mem.active ==> p in t.mem.active && s.mem.active[p].version < t.mem.active[p].version
    ensures s.mem.generation == |s.commits| && t.mem.generation == s.mem.generation + 1
  {
    var n := |s.commits|;
    assert GoodSlots(t.commits[n].slots, n + 1);
    if n > 0 {
      assert s.commits[n - 1] == t.commits[n - 1];
      assert GoodSlots(s.commits[n - 1].slots, n);
      assert Rises(t.commits[n - 1].slots, t.commits[n].slots);
    }
  }

  // ---- what a caller was told stays true ----

  /** Once an import has answered SUCCESS to a caller that saw the answer, the result query
      answers COMMITTED with the same purpose, key id, version, envelope digest and check
      value per item, after any further run. */
  lemma SuccessIsForever(s: State, step: Step, later: seq<Step>)
    requires Inv(s) && IsImport(step) && Enabled(s, step)
    requires Take(s, step).0.alive && Take(s, step).1.code == Success
    requires Feasible(Take(s, step).0, later)
    ensures var o := Take(s, step).1;
            var q := QueryResult(StateAfter(Take(s, step).0, later), RequestOf(step).requestId);
            q.code == Success && q.state == Committed && Acks(q.items) == Acks(o.items)
  {
    hide Inv, Progressed, Import, ImportKl1, StateAfter, Feasible;
    var (t, o) := Take(s, step);
    var rid := RidOf(RequestOf(step).requestId);
    StepKeeps(s, step);
    SuccessIsReported(s, step);
    RunKeeps(t, later);
    StaysSucceeded(t, StateAfter(t, later), rid);
  }

  lemma StaysSucceeded(s: State, t: State, rid: Rid)
    requires Progressed(s, t) && rid in s.mem.journal && s.mem.journal[rid].phase == Succeeded
    ensures rid in t.mem.journal && t.mem.journal[rid].phase == Succeeded
    ensures Acks(t.mem.journal[rid].items) == Acks(s.mem.journal[rid].items)
  {
  }

  lemma SuccessIsReported(s: State, step: Step)
    requires Inv(s) && IsImport(step) && Enabled(s, step) && Take(s, step).1.code == Success
    ensures Reports(Take(s, step).0, RidOf(RequestOf(step).requestId), Take(s, step).1)
    ensures 1 <= |RequestOf(step).requestId| <= 128
  {
    hide Inv, Import, ImportKl1, BatchOf, Progressed, Reports;
    var s1 := s.(script := step.script);
    ScriptIrrelevant(s, step.script);
    match step {
      case DoImport(req, env, _) =>
        ImportEffect(s1, req, env);
        SuccessIsWellFormed(s1, req, env);
      case DoImportKl1(req, ctx, env, _) =>
        ImportKl1Effect(s1, req, ctx, env);
        Kl1SuccessIsWellFormed(s1, req, ctx, env);
    }
  }

  lemma SuccessIsWellFormed(s: State, req: Request, env: Env)
    requires Shaped(req, env) && Import(s, req, env).1.code == Success
    ensures WellFormed(req)
  {
    hide RunPipeline, Resume, ValidateVersionAndTime;
    StructureAccepts(req);
  }

  lemma Kl1SuccessIsWellFormed(s: State, req: Request, ctx: Kl1Context, env: Env)
    requires Shaped(req, env) && ImportKl1(s, req, ctx, env).1.code == Success
    ensures WellFormed(req)
  {
    hide RunPipeline, Resume, ValidateVersionAndTime, Kl1Admission;
    StructureAccepts(req);
  }

  /** No request commits twice in any run; commit number `n` carries generation `n`. */
  lemma OneCommitPerRequest(steps: seq<Step>, i: nat, j: nat)
    requires Feasible(INITIAL, steps)
    requires i < j < |StateAfter(INITIAL, steps).commits|
    ensures var c := StateAfter(INITIAL, steps).commits;
            c[i].rid != c[j].rid && c[i].generation == i + 1 && Rises(c[i].slots, c[j].slots)
  {
    InitialGood();
    RunKeeps(INITIAL, steps);
  }

  /** No import changes an entry that is closed in memory, and no step of any kind changes
      one the disk has closed. */
  lemma ClosedEntriesStay(s: State, step: Step, r: Rid)
    requires Inv(s) && Enabled(s, step)
    ensures IsImport(step) && r in s.mem.journal && Terminal(s.mem.journal[r].phase) ==>
              r in Take(s, step).0.mem.journal && Take(s, step).0.mem.journal[r] == s.mem.journal[r]
    ensures r in s.disk.journal && Terminal(s.disk.journal[r].phase) ==>
              r in Take(s, step).0.disk.journal && Take(s, step).0.disk.journal[r] == s.disk.journal[r]
  {
    hide Inv, Import, ImportKl1, BatchOf, Restart;
    StepKeeps(s, step);
    if IsImport(step) {
      var s1 := s.(script := step.script);
      ScriptIrrelevant(s, step.script);
      match step {
        case DoImport(req, env, _) => ImportEffect(s1, req, env);
        case DoImportKl1(req, ctx, env, _) => ImportKl1Effect(s1, req, ctx, env);
      }
    }
  }

  /** Some order in which a start-up can list the journal. */
  lemma {:induction false} SomeListing(keys: set<Rid>) returns (rids: seq<Rid>)
    ensures Enumerates(rids, keys)
    decreases keys
  {
    if keys == {} {
      rids := [];
    } else {
      var r :| r in keys;
      var rest := SomeListing(keys - {r});
      rids := [r] + rest;
      forall i, j | 0 <= i < j < |rids| ensures rids[i] != rids[j] {
        assert rids[j] in rest;
        if i > 0 { assert rest[i - 1] == rids[i] && rest[j - 1] == rids[j]; }
      }
    }
  }

  ghost predicate IsFailed(m: Image, r: Rid) { r in m.journal && m.journal[r].phase == Failed }

  /** When a FAILED answer is final: a request that is FAILED in memory stays FAILED over every
      further run, whatever crashes, if and only if some entry for it has reached the disk.
      Otherwise the next start has forgotten it, and it can be imported afresh. */
  lemma FailedIsFinalExactly(s: State, r: Rid)
    requires Inv(s) && IsFailed(s.mem, r)
    ensures (forall later :: Feasible(s, later) ==> IsFailed(StateAfter(s, later).mem, r)) <==> r in s.disk.journal
  {
    hide Inv, Progressed, Take, Enabled;
    if r in s.disk.journal {
      forall later | Feasible(s, later) ensures IsFailed(StateAfter(s, later).mem, r) {
        RunKeeps(s, later);
        StaysFailed(s, StateAfter(s, later), r);
      }
    } else {
      var rids := SomeListing(s.disk.journal.Keys);
      var clock := seq(|rids|, _ => 0);
      RestartForgets(s, r, rids, clock);
      var later := [DoRestart([], rids, clock)];
      assert later[1..] == [];
      assert Feasible(s, later) && StateAfter(s, later) == Take(s, later[0]).0 by { OneStep(s, later[0]); }
    }
  }

  lemma OneStep(s: State, step: Step)
    requires Enabled(s, step)
    ensures Feasible(s, [step]) && StateAfter(s, [step]) == Take(s, step).0
  {
    hide Take, Enabled;
    assert [step][1..] == [];
    assert Feasible(Take(s, step).0, []);
  }

  lemma StaysFailed(s: State, t: State, r: Rid)
    requires Progressed(s, t) && IsFailed(s.mem, r) && r in s.disk.journal
    ensures IsFailed(t.mem, r)
  {
  }

  lemma RestartForgets(s: State, r: Rid, rids: seq<Rid>, clock: seq<int>)
    requires Inv(s) && r !in s.disk.journal && |clock| == |rids| && Enumerates(rids, s.disk.journal.Keys)
    ensures Enabled(s, DoRestart([], rids, clock)) && !IsFailed(Take(s, DoRestart([], rids, clock)).0.mem, r)
  {
    hide Inv, Restart;
    RestartSettles(s, [], rids, clock);
  }

  /** NOT_FOUND is answered exactly when the journal does not know the request, nothing was
      ever committed, nothing is staged and the ledger does not name the request; so no
      record saved at any time held an entry for it. */
  lemma NotFoundIsStrong(s: State, requestId: string)
    requires Inv(s)
    ensures var q := QueryResult(s, requestId);
            var rid := RidOf(requestId);
            (q.state == NotFound <==>
               (1 <= |requestId| <= 128 && rid !in s.mem.journal && s.commits == [] && s.mem.staging == map[]
                && (forall p :: p in REQUIRED && p in s.ledger ==> s.ledger[p].rid != rid)))
            && (q.state == NotFound ==> rid !in s.everDurable)
  {
    hide Inv, HasTransactionResidue, SameRequest;
    DurableFacts(s);
    ResidueExactly(s);
    var rid := RidOf(requestId);
    if rid in s.mem.journal {
      var phase := s.mem.journal[rid].phase;
      assert phase != Succeeded ==> StateOfPhase(phase) != NotFound;
    }
  }

  /** The commit marker is empty only before the first commit. */
  lemma ResidueExactly(s: State)
    requires Inv(s)
    ensures HasTransactionResidue(s.mem) <==> s.commits != [] || s.mem.staging != map[]
  {
    if s.commits != [] {
      assert s.mem.marker == MarkerOf(s.mem.generation, s.mem.active);
    }
  }

  /** The same over a run: a request answered NOT_FOUND at its end has never been in a saved
      record since its start, and no batch was committed on the way. */
  lemma NotFoundMeansNeverDurable(steps: seq<Step>, more: seq<Step>, requestId: string)
    requires Feasible(INITIAL, steps) && Feasible(StateAfter(INITIAL, steps), more)
    requires QueryResult(StateAfter(StateAfter(INITIAL, steps), more), requestId).state == NotFound
    ensures var s := StateAfter(INITIAL, steps);
            RidOf(requestId) !in s.everDurable && RidOf(requestId) !in s.disk.journal && s.commits == []
  {
    hide Inv;
    var s := StateAfter(INITIAL, steps);
    InitialGood();
    RunKeeps(INITIAL, steps);
    RunKeeps(s, more);
    NotFoundIsStrong(StateAfter(s, more), requestId);
    DurableFacts(s);
  }

  // ---- the KL1 entry point ----

  /** A commit anywhere in the past makes the residue check hit for every request id, so
      KL1 admits a new operation only on a provider that never committed and holds nothing
      staged. */
  lemma Kl1OnlyBeforeFirstCommit(s: State, req: Request, ctx: Kl1Context, env: Env)
    requires Inv(s) && Shaped(req, env) && RidOf(req.requestId) !in s.mem.journal
    requires s.commits != [] || s.mem.staging != map[]
    ensures ImportKl1(s, req, ctx, env).0 == s && ImportKl1(s, req, ctx, env).1.code != Success
  {
    hide Inv, HasTransactionResidue, RunPipeline, Kl1Admission;
    ResidueExactly(s);
  }

  // ---- replays ----

  /** A request that succeeded fits what the journal has about it. */
  lemma SuccessFitsDigest(s: State, req: Request, env: Env)
    requires Inv(s) && Shaped(req, env) && Import(s, req, env).1.code == Success
    ensures var t := Import(s, req, env).0;
            var rid := RidOf(req.requestId);
            rid in t.mem.journal && !Conflicts(t.mem.journal[rid], req)
  {
    hide Inv, RunPipeline, Resume, PreCheck, ValidateVersionAndTime, NextGeneration, Admitted;
    if RidOf(req.requestId) in s.mem.journal {
      ResumeFitsDigest(s, req, env);
    } else {
      Admission(s, req, env);
      PipelineFitsDigest(s, req, env, NowMs(env.start));
    }
  }

  lemma Kl1SuccessFitsDigest(s: State, req: Request, ctx: Kl1Context, env: Env)
    requires Inv(s) && Shaped(req, env) && ImportKl1(s, req, ctx, env).1.code == Success
    ensures var t := ImportKl1(s, req, ctx, env).0;
            var rid := RidOf(req.requestId);
            rid in t.mem.journal && !Conflicts(t.mem.journal[rid], req)
  {
    hide Inv, RunPipeline, Resume, PreCheck, ValidateVersionAndTime, NextGeneration, Admitted, HasResidue, LeaseCode,
         ItemsCover;
    if RidOf(req.requestId) in s.mem.journal {
      ResumeFitsDigest(s, req, env);
    } else {
      Admission(s, req, env);
      PipelineFitsDigest(s, req, env, NowMs(env.start));
    }
  }

  lemma ResumeFitsDigest(s: State, req: Request, env: Env)
    requires Inv(s) && RidOf(req.requestId) in s.mem.journal
    requires Resume(s, s.mem.journal[RidOf(req.requestId)], req, env).1.code == Success
    ensures var t := Resume(s, s.mem.journal[RidOf(req.requestId)], req, env).0;
            var rid := RidOf(req.requestId);
            rid in t.mem.journal && !Conflicts(t.mem.journal[rid], req)
  {
    hide Inv, RecoverEntry, Acks;
    var rid := RidOf(req.requestId);
    if !Terminal(s.mem.journal[rid].phase) { RecoverKeeps(s, rid, NowMs(env.recovery)); }
  }

  lemma PipelineFitsDigest(s: State, req: Request, env: Env, now: int)
    requires Shaped(req, env) && Admitted(s, req)
    requires RunPipeline(s, req, env, NextGeneration(s.mem), now).1.code == Success
    ensures var t := RunPipeline(s, req, env, NextGeneration(s.mem), now).0;
            var rid := RidOf(req.requestId);
            rid in t.mem.journal && !Conflicts(t.mem.journal[rid], req)
  {
    AdmittedFacts(s, req);
    PipelineKeeps(s, req, env, now);
    hide Inv, RunPipeline, BatchOf, Admitted, WellFormed, Acks, NewStatus;
  }

  lemma FirstSuccessFits(s: State, step: Step)
    requires Inv(s) && IsImport(step) && Enabled(s, step) && Take(s, step).1.code == Success
    ensures var t := Take(s, step).0;
            var rid := RidOf(RequestOf(step).requestId);
            rid in t.mem.journal && !Conflicts(t.mem.journal[rid], RequestOf(step))
  {
    hide Inv, Import, ImportKl1, Progressed;
    var s1 := s.(script := step.script);
    ScriptIrrelevant(s, step.script);
    match step {
      case DoImport(req, env, _) => SuccessFitsDigest(s1, req, env);
      case DoImportKl1(req, ctx, env, _) => Kl1SuccessFitsDigest(s1, req, ctx, env);
    }
  }

  /** A replay over either interface gets past the checks that come before the journal. */
  predicate ReachesJournal(step: Step)
    requires IsImport(step)
  {
    match step
    case DoImport(req, env, _) => PreCheck(req, env) == Success
    case DoImportKl1(req, ctx, env, _) => Kl1PreCheck(req, ctx, env) == Success
  }

  lemma ReplayOfSucceeded(s: State, step: Step)
    requires IsImport(step) && Enabled(s, step) && ReachesJournal(step)
    requires var rid := RidOf(RequestOf(step).requestId);
             rid in s.mem.journal && s.mem.journal[rid].phase == Succeeded
             && !Conflicts(s.mem.journal[rid], RequestOf(step))
    ensures Take(s, step) ==
              (s.(script := step.script), CommittedResult(s.mem.journal[RidOf(RequestOf(step).requestId)]))
  {
    hide PreCheck, Kl1PreCheck, RunPipeline, ValidateVersionAndTime, Conflicts;
  }

  lemma DigestStays(s: State, t: State, rid: Rid)
    requires Progressed(s, t) && rid in s.mem.journal && s.mem.journal[rid].phase == Succeeded
    ensures rid in t.mem.journal && t.mem.journal[rid].requestDigest == s.mem.journal[rid].requestDigest
  {
  }

  /** Replays are idempotent over runs. Once a caller has seen SUCCESS, then after any further
      imports, crashes and restarts a request with the same id and digest, over either
      interface, under any deadline and any nonzero epoch, answers SUCCESS and COMMITTED with
      the same acknowledgement, and changes nothing at all. */
  lemma ReplayAnswersTheSame(s: State, step: Step, later: seq<Step>, replay: Step)
    requires Inv(s) && IsImport(step) && Enabled(s, step)
    requires Take(s, step).0.alive && Take(s, step).1.code == Success
    requires Feasible(Take(s, step).0, later) && Enabled(StateAfter(Take(s, step).0, later), replay)
    requires IsImport(replay) && ReachesJournal(replay)
    requires RequestOf(replay).requestId == RequestOf(step).requestId
    requires RequestOf(replay).digest == RequestOf(step).digest
    ensures var u := StateAfter(Take(s, step).0, later);
            var (v, o) := Take(u, replay);
            && v == u.(script := replay.script)
            && o.code == Success && o.state == Committed && Acks(o.items) == Acks(Take(s, step).1.items)
  {
    hide Inv, Progressed, Import, ImportKl1, StateAfter, Feasible, PreCheck, Kl1PreCheck, ReachesJournal;
    var (t, o) := Take(s, step);
    var rid := RidOf(RequestOf(step).requestId);
    var u := StateAfter(t, later);
    StepKeeps(s, step);
    SuccessIsReported(s, step);
    FirstSuccessFits(s, step);
    RunKeeps(t, later);
    StaysSucceeded(t, u, rid);
    DigestStays(t, u, rid);
    ReplayOfSucceeded(u, replay);
  }

  /** The codes a pipeline can end with. */
  predicate PipelineCode(rc: Code) {
    rc in {Success, NotReady, WrappedKeyInvalid, Unsupported, OutcomeUnknownCode, PartialRollback, Conflict,
           StorageWriteFailed, InternalError}
  }

  lemma UnwrapCodes(s: State, item: Item, generation: nat, u: Unwrap)
    ensures PipelineCode(UnwrapToStaging(s, item, generation, u).1)
  {
  }

  lemma StageCodes(s: State, e: Entry, req: Request, env: Env, i: nat)
    requires Shaped(req, env) && i <= |req.items|
    ensures var r := StageFrom(s, e, req, env, i); r.Ended? ==> PipelineCode(r.o.code)
    decreases |req.items| - i
  {
    hide SaveState, UnwrapToStaging, SaveJournal, RollbackStaging;
    if i < |req.items| {
      UnwrapCodes(s, req.items[i], e.generation, env.unwraps[i]);
      var (s1, rc) := UnwrapToStaging(s, req.items[i], e.generation, env.unwraps[i]);
      if rc == Success {
        var e1 := if req.items[i].purpose == UplinkAead then e.(phase := UplinkStaged) else e;
        StageCodes(SaveJournal(s1, e1).0, e1, req, env, i + 1);
      }
    }
  }

  lemma VerifyCodes(m: Image, req: Request, env: Env, i: nat)
    requires Shaped(req, env) && i <= |req.items|
    ensures PipelineCode(VerifyFrom(m, req, env, i))
    decreases |req.items| - i
  {
    if i < |req.items| { VerifyCodes(m, req, env, i + 1); }
  }

  lemma CommitPhaseCodes(s: State, e: Entry, env: Env, now: int)
    requires |e.items| == |env.proofs| == |env.unwraps|
    ensures PipelineCode(CommitPhase(s, e, env, now).1.code)
  {
    hide SaveJournal, UpdateLedger, RollbackStaging, ProofsMade, FinishStatus;
  }

  lemma PipelineCodes(s: State, req: Request, env: Env, generation: nat, now: int)
    requires Shaped(req, env)
    ensures PipelineCode(RunPipeline(s, req, env, generation, now).1.code)
  {
    assert PipelineCode(Success);
    hide SaveJournal, RollbackStaging, CommitPhase, PipelineCode, StageFrom, VerifyFrom;
    var e := NewEntry(req, generation, now);
    var s1 := SaveJournal(s, e).0;
    StageCodes(s1, e, req, env, 0);
    match StageFrom(s1, e, req, env, 0)
    case Ended(_, _) =>
    case Going(s2, e2) =>
      var e3 := e2.(phase := BothStaged);
      var s3 := SaveJournal(s2, e3).0;
      VerifyCodes(s3.mem, req, env, 0);
      CommitPhaseCodes(s3, e3, env, now);
  }

  lemma AdmissionCodeNotFromPipeline(rc: Code)
    requires PipelineCode(rc)
    ensures rc != AdmissionRejected && rc != EpochMismatch
  {
  }

  /** What the envelope check can answer. */
  predicate EnvelopeCode(rc: Code) { rc in {Success, Unsupported, WrappedKeyInvalid, NotReady} }

  /** An expired lease or a foreign epoch leaves every slot, the staging, the journal and the
      ledger as they were, in memory and on disk. */
  lemma Kl1RejectionChangesNothing(s: State, req: Request, ctx: Kl1Context, env: Env)
    requires Shaped(req, env) && EnvelopeCode(env.envelopeCheck)
    ensures var (t, o) := ImportKl1(s, req, ctx, env);
            o.code == AdmissionRejected || o.code == EpochMismatch ==> t == s
  {
    hide RunPipeline, PreCheck, Kl1Admission, RecoverEntry;
    var rid := RidOf(req.requestId);
    if Kl1PreCheck(req, ctx, env) == Success && rid !in s.mem.journal {
      var now := NowMs(env.start);
      PipelineCodes(s, req, env, NextGeneration(s.mem), now);
      AdmissionCodeNotFromPipeline(RunPipeline(s, req, env, NextGeneration(s.mem), now).1.code);
    }
  }

  /** A KL1 call that changes anything about a request it did not know passed the last lease
      check: the upper end of that trusted-time reading was strictly before the deadline. */
  lemma Kl1StartsBeforeDeadline(s: State, req: Request, ctx: Kl1Context, env: Env)
    requires Shaped(req, env) && RidOf(req.requestId) !in s.mem.journal
    requires ImportKl1(s, req, ctx, env).0 != s
    ensures UpperNow(env.lastCheck).Some? && UpperNow(env.lastCheck).value < ctx.expireAt
    ensures ctx.epoch == env.epoch
  {
    hide RunPipeline, PreCheck, ValidateVersionAndTime, ItemsCover;
  }
}
