/** Whole runs of the provisioning service: imports over both interfaces and restarts, with
    the power going at any save of any of them. */
module ProvisioningRuns {
  import opened ProviderState
  import opened Provisioning
  import opened ProvisioningInvariants
  import opened ProvisioningCalls
  import opened ProvisioningRecovery

  // ---- one import call ----

  /** What an import of `rid` may do: it touches one entry, never a closed one, commits at
      most one batch, and reports success only about a closed entry of its own. */
  ghost predicate Effect(s: State, t: State, rid: Rid, o: Outcome) {
    && (t.commits == s.commits || t.commits == s.commits + [Commit(rid, |s.commits| + 1, t.mem.active)])
    && (forall r :: r in s.mem.journal ==>
          r in t.mem.journal && SameRequest(t.mem.journal[r], s.mem.journal[r])
          && (r != rid || Terminal(s.mem.journal[r].phase) ==> t.mem.journal[r] == s.mem.journal[r]))
    && t.mem.journal.Keys <= s.mem.journal.Keys + {rid}
    && (t.disk == s.disk || KeepsOthers(s, t, rid))
    && (o.code == Success ==> Reports(t, rid, o))
    && (o.code == Success && t.commits == s.commits ==> rid in s.mem.journal)
    && (o.state == ImportFailed ==> t.commits == s.commits)
    && (t.alive ==> s.alive)
  }

  ghost predicate Reports(t: State, rid: Rid, o: Outcome) {
    rid in t.mem.journal && t.mem.journal[rid].phase == Succeeded && o == CommittedResult(t.mem.journal[rid])
  }

  ghost predicate KeepsOthers(s: State, t: State, rid: Rid) {
    forall r :: r in s.mem.journal ==>
      r in t.disk.journal
      && (r != rid || Terminal(s.mem.journal[r].phase) ==> t.disk.journal[r] == s.mem.journal[r])
  }

  lemma SameRequestReflexive()
    ensures forall e :: SameRequest(e, e)
  {
  }

  lemma NothingHappened(s: State, rid: Rid, o: Outcome)
    requires o.code != Success
      || Reports(s, rid, o)
    ensures Effect(s, s, rid, o)
  {
    SameRequestReflexive();
  }

  lemma SettlesEffect(s: State, t: State, r: Rid, e1: Entry, o: Outcome)
    requires Settles(s, t, r, e1) && !Terminal(s.mem.journal[r].phase)
    requires o.code == Success ==> e1.phase == Succeeded && o == CommittedResult(e1)
    ensures Effect(s, t, r, o)
  {
    SameRequestReflexive();
  }

  lemma ResumeEffect(s: State, req: Request, env: Env)
    requires Inv(s) && RidOf(req.requestId) in s.mem.journal
    ensures var rid := RidOf(req.requestId);
            var (t, o) := Resume(s, s.mem.journal[rid], req, env);
            Inv(t) && Effect(s, t, rid, o) && t.commits == s.commits
  {
    hide Inv, RecoverEntry, Effect, SaveJournal;
    var rid := RidOf(req.requestId);
    var e := s.mem.journal[rid];
    if Conflicts(e, req) || Terminal(e.phase) {
      NothingHappened(s, rid, Resume(s, e, req, env).1);
    } else {
      RecoverKeeps(s, rid, NowMs(env.recovery));
      var (t, e1) := RecoverEntry(s, e, NowMs(env.recovery));
      SettlesEffect(s, t, rid, e1, Resume(s, e, req, env).1);
    }
  }

  lemma LostEffect(s: State, t: State, e: Entry, o: Outcome)
    requires Uncommitted(s, t, e) && o.code != Success && e.rid !in s.mem.journal
    ensures Effect(s, t, e.rid, o)
  {
    SameRequestReflexive();
  }

  lemma WonEffect(s: State, t: State, e: Entry, o: Outcome)
    requires Inv(s) && Won(s, t, e, o, t.mem.active) && e.rid !in s.mem.journal && e.generation == |s.commits| + 1
    ensures Effect(s, t, e.rid, o)
  {
    hide Inv;
    SameRequestReflexive();
  }

  /** The commit of a pipeline, when there is one: both slots from this request's items. */
  ghost predicate CommitsOwnBatch(s: State, t: State, req: Request, env: Env)
    requires Shaped(req, env)
  {
    t.commits != s.commits ==> BatchOf(t.mem.active, req, env, |s.commits| + 1)
  }

  lemma PipelineEffect(s: State, req: Request, env: Env, now: int)
    requires Shaped(req, env) && Admitted(s, req)
    ensures var (t, o) := RunPipeline(s, req, env, NextGeneration(s.mem), now);
            Inv(t) && Effect(s, t, RidOf(req.requestId), o) && CommitsOwnBatch(s, t, req, env)
  {
    AdmittedFacts(s, req);
    PipelineKeeps(s, req, env, now);
    var e := NewEntry(req, s.mem.generation + 1, now);
    var (t, o) := RunPipeline(s, req, env, s.mem.generation + 1, now);
    hide Inv, Effect, RunPipeline, Outside, BatchOf, Admitted, WellFormed;
    if Lost(s, t, e, o) {
      LostEffect(s, t, e, o);
    } else {
      WonEffect(s, t, e, o);
    }
  }

  lemma AdmittedFacts(s: State, req: Request)
    requires Admitted(s, req)
    ensures NextGeneration(s.mem) == s.mem.generation + 1 == |s.commits| + 1
  {
    NextIsOneMore(s.mem, s.commits);
  }

  lemma Admission(s: State, req: Request, env: Env)
    requires Inv(s) && PreCheck(req, env) == Success && RidOf(req.requestId) !in s.mem.journal
    requires ValidateVersionAndTime(s.mem, req.items, env.validation) == Success
    ensures Admitted(s, req)
  {
    StructureAccepts(req);
    VersionsRise(s.mem, req.items, env.validation.utc, 0);
  }

  lemma ImportEffect(s: State, req: Request, env: Env)
    requires Inv(s) && Shaped(req, env)
    ensures var (t, o) := Import(s, req, env);
            Inv(t) && Effect(s, t, RidOf(req.requestId), o) && CommitsOwnBatch(s, t, req, env)
  {
    hide Inv, Effect, RunPipeline, Resume, PreCheck, ValidateVersionAndTime, BatchOf, NextGeneration, Admitted;
    var rid := RidOf(req.requestId);
    if PreCheck(req, env) != Success {
      NothingHappened(s, rid, Import(s, req, env).1);
    } else if rid in s.mem.journal {
      ResumeEffect(s, req, env);
    } else if ValidateVersionAndTime(s.mem, req.items, env.validation) != Success {
      NothingHappened(s, rid, Import(s, req, env).1);
    } else {
      Admission(s, req, env);
      PipelineEffect(s, req, env, NowMs(env.start));
    }
  }

  lemma ImportKl1Effect(s: State, req: Request, ctx: Kl1Context, env: Env)
    requires Inv(s) && Shaped(req, env)
    ensures var (t, o) := ImportKl1(s, req, ctx, env);
            Inv(t) && Effect(s, t, RidOf(req.requestId), o) && CommitsOwnBatch(s, t, req, env)
  {
    hide Inv, Effect, RunPipeline, Resume, PreCheck, ValidateVersionAndTime, BatchOf, NextGeneration, Admitted,
         HasResidue, LeaseCode, ItemsCover;
    var rid := RidOf(req.requestId);
    if Kl1PreCheck(req, ctx, env) != Success {
      NothingHappened(s, rid, ImportKl1(s, req, ctx, env).1);
    } else if rid in s.mem.journal {
      ResumeEffect(s, req, env);
    } else if HasResidue(s, rid) || Kl1Admission(s, req, ctx, env) != Success {
      NothingHappened(s, rid, ImportKl1(s, req, ctx, env).1);
    } else {
      Admission(s, req, env);
      PipelineEffect(s, req, env, NowMs(env.start));
    }
  }

  // ---- runs ----

  datatype Step =
    | DoImport(req: Request, env: Env, script: seq<SaveOutcome>)
    | DoImportKl1(req: Request, ctx: Kl1Context, env: Env, script: seq<SaveOutcome>)
    | DoRestart(script: seq<SaveOutcome>, rids: seq<Rid>, clock: seq<int>)

  /** Without power only a restart can happen; a restart may also follow a clean stop. */
  ghost predicate Enabled(s: State, step: Step) {
    match step
    case DoImport(req, env, _) => s.alive && Shaped(req, env)
    case DoImportKl1(req, _, env, _) => s.alive && Shaped(req, env)
    case DoRestart(_, rids, clock) => |clock| == |rids| && Enumerates(rids, s.disk.journal.Keys)
  }

  function Take(s: State, step: Step): (State, Outcome)
    requires Enabled(s, step)
  {
    match step
    case DoImport(req, env, script) => Import(s.(script := script), req, env)
    case DoImportKl1(req, ctx, env, script) => ImportKl1(s.(script := script), req, ctx, env)
    case DoRestart(script, rids, clock) => (Restart(s, script, rids, clock), Answer(Success, Unknown))
  }

  ghost predicate Feasible(s: State, steps: seq<Step>)
    decreases |steps|
  {
    steps == [] || (Enabled(s, steps[0]) && Feasible(Take(s, steps[0]).0, steps[1..]))
  }

  ghost function StateAfter(s: State, steps: seq<Step>): State
    requires Feasible(s, steps)
    decreases |steps|
  {
    if steps == [] then s else StateAfter(Take(s, steps[0]).0, steps[1..])
  }

  // ---- what every step, and so every run, keeps ----

  /** What never goes back from `s` to `t`, whatever crashed between them: commits are only
      appended, a request the disk knows stays known with the same content, an entry the
      disk has closed never changes, a request seen as SUCCEEDED stays SUCCEEDED with the same
      acknowledgement, and one seen as FAILED that the disk knows stays FAILED. */
  ghost predicate Progressed(s: State, t: State) {
    && s.commits <= t.commits
    && s.everDurable <= t.everDurable
    && (forall r :: r in s.disk.journal ==>
          r in t.disk.journal && SameRequest(t.disk.journal[r], s.disk.journal[r])
          && (Terminal(s.disk.journal[r].phase) ==> t.disk.journal[r] == s.disk.journal[r]))
    && (forall r :: r in s.mem.journal && s.mem.journal[r].phase == Succeeded ==>
          r in t.mem.journal && t.mem.journal[r].phase == Succeeded
          && SameRequest(t.mem.journal[r], s.mem.journal[r]))
    && FailuresStay(s, t)
  }

  ghost predicate FailuresStay(s: State, t: State) {
    forall r :: r in s.disk.journal && r in s.mem.journal && s.mem.journal[r].phase == Failed ==>
      r in t.mem.journal && t.mem.journal[r].phase == Failed
  }

  lemma EffectProgresses(s: State, t: State, rid: Rid, o: Outcome)
    requires Inv(s) && Inv(t) && Effect(s, t, rid, o)
    ensures Progressed(s, t)
  {
    hide Inv, SameRequest, LagFacts, Effect;
    DurableFacts(s);
    DurableFacts(t);
    CommitsAndSuccesses(s, t, rid, o);
    forall r | r in s.disk.journal
      ensures r in t.disk.journal && SameRequest(t.disk.journal[r], s.disk.journal[r])
      ensures Terminal(s.disk.journal[r].phase) ==> t.disk.journal[r] == s.disk.journal[r]
    {
      EntryProgresses(s, t, rid, o, r);
    }
    assert s.everDurable <= t.everDurable by { SameKeys(s); SameKeys(t); }
  }

  lemma SameKeys(s: State)
    requires LagFacts(s)
    ensures s.everDurable == s.disk.journal.Keys
  {
  }

  lemma CommitsAndSuccesses(s: State, t: State, rid: Rid, o: Outcome)
    requires Effect(s, t, rid, o)
    ensures s.commits <= t.commits
    ensures forall r :: r in s.mem.journal && s.mem.journal[r].phase == Succeeded ==>
              r in t.mem.journal && t.mem.journal[r].phase == Succeeded
              && SameRequest(t.mem.journal[r], s.mem.journal[r])
    ensures FailuresStay(s, t)
  {
  }

  lemma EntryProgresses(s: State, t: State, rid: Rid, o: Outcome, r: Rid)
    requires LagFacts(s) && LagFacts(t) && Effect(s, t, rid, o) && r in s.disk.journal
    ensures r in t.disk.journal && SameRequest(t.disk.journal[r], s.disk.journal[r])
    ensures Terminal(s.disk.journal[r].phase) ==> t.disk.journal[r] == s.disk.journal[r]
  {
    hide SameRequest;
    assert r in s.mem.journal;
    if t.disk == s.disk {
      SameRequestAsItself(s.disk.journal[r]);
    } else {
      assert r in t.disk.journal && r in t.mem.journal;
      SameRequestTransitive(t.disk.journal[r], t.mem.journal[r], s.mem.journal[r]);
      SameRequestSymmetric(s.disk.journal[r], s.mem.journal[r]);
      SameRequestTransitive(t.disk.journal[r], s.mem.journal[r], s.disk.journal[r]);
    }
  }

  lemma SameRequestSymmetric(a: Entry, b: Entry)
    requires SameRequest(a, b)
    ensures SameRequest(b, a)
  {
  }

  lemma SameRequestTransitive(a: Entry, b: Entry, c: Entry)
    requires SameRequest(a, b) && SameRequest(b, c)
    ensures SameRequest(a, c)
  {
  }

  /** What the invariant says about disk against memory, and no more. */
  ghost predicate LagFacts(s: State) {
    && s.everDurable == s.disk.journal.Keys && s.disk.journal.Keys <= s.mem.journal.Keys
    && (forall r :: r in s.disk.journal ==> SameRequest(s.disk.journal[r], s.mem.journal[r]))
    && (forall r :: r in s.disk.journal && Terminal(s.disk.journal[r].phase) ==>
          s.mem.journal[r] == s.disk.journal[r])
  }

  lemma DurableFacts(s: State)
    requires Inv(s)
    ensures LagFacts(s)
  {
  }

  /** A request closed as SUCCEEDED in memory is on the disk closed the same way, or still
      open under the generation of the active slots, so that a restart closes it again. */
  lemma SucceededIsDurable(s: State, r: Rid)
    requires Inv(s) && r in s.mem.journal && s.mem.journal[r].phase == Succeeded
    ensures r in s.disk.journal && SameRequest(s.disk.journal[r], s.mem.journal[r])
    ensures s.disk.journal[r].phase == Succeeded
            || (!Terminal(s.disk.journal[r].phase) && s.disk.journal[r].generation == |s.commits|)
  {
  }

  lemma RestartProgresses(s: State, script: seq<SaveOutcome>, rids: seq<Rid>, clock: seq<int>)
    requires Inv(s) && |clock| == |rids| && Enumerates(rids, s.disk.journal.Keys)
    ensures var t := Restart(s, script, rids, clock); Inv(t) && Progressed(s, t) && t.commits == s.commits
  {
    hide Inv, Restart, SameRequest, LagFacts;
    RestartSettles(s, script, rids, clock);
    var t := Restart(s, script, rids, clock);
    DurableFacts(s);
    DurableFacts(t);
    forall r | r in s.disk.journal
      ensures r in t.disk.journal && SameRequest(t.disk.journal[r], s.disk.journal[r])
      ensures Terminal(s.disk.journal[r].phase) ==> t.disk.journal[r] == s.disk.journal[r]
    {
      StillSame(s, t, r);
    }
    forall r | r in s.mem.journal && s.mem.journal[r].phase == Succeeded
      ensures r in t.mem.journal && t.mem.journal[r].phase == Succeeded
           && SameRequest(t.mem.journal[r], s.mem.journal[r])
    {
      SucceededIsDurable(s, r);
      SucceedsAgain(s.mem.journal[r], s.disk.journal[r], t.mem.journal[r], |s.commits|);
    }
    assert s.everDurable <= t.everDurable by { EverDurable(s, t); }
    forall r | r in s.disk.journal && r in s.mem.journal && s.mem.journal[r].phase == Failed
      ensures r in t.mem.journal && t.mem.journal[r].phase == Failed
    {
      FailedOnDisk(s, r);
      FailsAgain(s.disk.journal[r], t.mem.journal[r], |s.commits|);
    }
  }

  /** A request closed as FAILED in memory that the disk knows is on the disk closed the same
      way, or open under another generation than the active one. */
  lemma FailedOnDisk(s: State, r: Rid)
    requires Inv(s) && r in s.mem.journal && s.mem.journal[r].phase == Failed && r in s.disk.journal
    ensures s.disk.journal[r].phase == Failed
            || (!Terminal(s.disk.journal[r].phase) && s.disk.journal[r].generation != |s.commits|)
  {
  }

  lemma FailsAgain(disk: Entry, settled: Entry, generation: nat)
    requires Settled(disk, settled, generation)
    requires disk.phase == Failed || (!Terminal(disk.phase) && disk.generation != generation)
    ensures settled.phase == Failed
  {
  }

  lemma EverDurable(s: State, t: State)
    requires LagFacts(s) && LagFacts(t) && DiskKept(s.disk, t.disk)
    ensures s.everDurable <= t.everDurable
  {
  }

  lemma StillSame(s: State, t: State, r: Rid)
    requires LagFacts(t) && r in s.disk.journal && DiskKept(s.disk, t.disk)
    requires r in t.mem.journal && SameRequest(t.mem.journal[r], s.disk.journal[r])
    ensures r in t.disk.journal && SameRequest(t.disk.journal[r], s.disk.journal[r])
    ensures Terminal(s.disk.journal[r].phase) ==> t.disk.journal[r] == s.disk.journal[r]
  {
    SameRequestTransitive(t.disk.journal[r], t.mem.journal[r], s.disk.journal[r]);
  }

  lemma SucceedsAgain(mem: Entry, disk: Entry, settled: Entry, generation: nat)
    requires Settled(disk, settled, generation) && SameRequest(disk, mem)
    requires disk.phase == Succeeded || (!Terminal(disk.phase) && disk.generation == generation)
    ensures settled.phase == Succeeded && SameRequest(settled, mem)
  {
    SameRequestTransitive(settled, disk, mem);
  }
}
