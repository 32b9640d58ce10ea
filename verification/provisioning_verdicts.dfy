/** Does recovery tell the truth? It closes an entry as SUCCEEDED when the active slots carry
    the entry's generation. Generation numbers are reused after a rollback, so this is the
    same as "this request's own batch was committed" only while no other request commits
    with the entry still open. */
module ProvisioningVerdicts {
  import opened ProviderState
  import opened Provisioning
  import opened ProvisioningInvariants
  import opened ProvisioningCalls
  import opened ProvisioningRecovery
  import opened ProvisioningRuns
  import opened ProvisioningTheorems

  /** Recovering `r` now would close it as SUCCEEDED exactly when it was committed. */
  ghost predicate VerdictRight(s: State, r: Rid, now: int)
    requires r in s.mem.journal
  {
    RecoverEntry(s, s.mem.journal[r], now).1.phase == Succeeded <==> CommittedBy(s.commits, r)
  }

  /** The commit that used the entry's generation, if any, in terms of the commit order. */
  lemma OwnCommit(s: State, r: Rid)
    requires Inv(s) && r in s.mem.journal
    ensures var g := s.mem.journal[r].generation;
            CommittedBy(s.commits, r) <==> (1 <= g <= |s.commits| && s.commits[g - 1].rid == r)
  {
    hide Inv, CommitsGood, Lags, ActiveGood, StagingGood, ItemsMatch;
    InvParts(s);
  }

  /** For any reachable state, disciplined or not: the verdict on an open entry is right
      exactly when the entry's generation is not yet committed, or is the last one committed
      and by this request, or is an older one committed by another request. */
  lemma VerdictExactly(s: State, r: Rid, now: int)
    requires Inv(s) && r in s.mem.journal && !Terminal(s.mem.journal[r].phase)
    ensures var g := s.mem.journal[r].generation;
            VerdictRight(s, r, now) <==>
              (g <= |s.commits| ==> (g == |s.commits| <==> s.commits[g - 1].rid == r))
  {
    RecoverKeeps(s, r, now);
    OwnCommit(s, r);
  }

  // ---- runs in which no request commits while another is open ----

  /** A closed entry tells the truth, and an open one belongs to the last commit or to the
      next one. */
  ghost predicate TruthfulEntry(e: Entry, r: Rid, commits: seq<Commit>) {
    && (e.phase == Succeeded ==> CommittedBy(commits, r))
    && (e.phase == Failed ==> !CommittedBy(commits, r))
    && (!Terminal(e.phase) ==> e.generation >= |commits| && (CommittedBy(commits, r) <==> e.generation == |commits|))
  }

  ghost predicate Truthful(m: Image, commits: seq<Commit>) {
    forall r :: r in m.journal ==> TruthfulEntry(m.journal[r], r, commits)
  }

  ghost predicate TruthfulState(s: State) { Truthful(s.mem, s.commits) && Truthful(s.disk, s.commits) }

  /** No journal entry but the request's own is open in memory. */
  ghost predicate OthersClosed(m: Image, rid: Rid) {
    forall r :: r in m.journal && r != rid ==> Terminal(m.journal[r].phase)
  }

  /** The step does not commit while another request is open. */
  ghost predicate Disciplined(s: State, step: Step)
    requires Enabled(s, step)
  {
    Take(s, step).0.commits != s.commits ==>
      IsImport(step) && OthersClosed(s.mem, RidOf(RequestOf(step).requestId))
  }

  ghost predicate DisciplinedRun(s: State, steps: seq<Step>)
    requires Feasible(s, steps)
    decreases |steps|
  {
    steps == [] || (Disciplined(s, steps[0]) && DisciplinedRun(Take(s, steps[0]).0, steps[1..]))
  }

  lemma CommittedByMore(commits: seq<Commit>, c: Commit, r: Rid)
    ensures CommittedBy(commits + [c], r) <==> CommittedBy(commits, r) || r == c.rid
  {
    if CommittedBy(commits, r) {
      var i :| 0 <= i < |commits| && commits[i].rid == r;
      assert (commits + [c])[i].rid == r;
    }
    assert (commits + [c])[|commits|] == c;
  }

  lemma TracksTruthful(s: State, m: Image, e: Entry, commits: seq<Commit>)
    requires Tracks(s, m, e) && TruthfulEntry(m.journal[e.rid], e.rid, commits)
    requires forall r :: r in s.mem.journal && r != e.rid ==> TruthfulEntry(s.mem.journal[r], r, commits)
    ensures Truthful(m, commits)
  {
    hide TruthfulEntry, SameRequest;
  }

  lemma SameGenerationNumber(a: Entry, b: Entry)
    requires SameRequest(a, b)
    ensures a.generation == b.generation
  {
  }

  lemma LostTruthful(s: State, t: State, e: Entry, o: Outcome)
    requires Inv(s) && Lost(s, t, e, o) && e.rid !in s.mem.journal && e.generation == |s.commits| + 1
    requires TruthfulState(s)
    ensures TruthfulState(t)
  {
    NotYetCommitted(s, e.rid);
    hide Inv, SameRequest, CommittedBy;
    SameGenerationNumber(t.mem.journal[e.rid], e);
    TracksTruthful(s, t.mem, e, t.commits);
    if t.disk != s.disk {
      SameGenerationNumber(t.disk.journal[e.rid], e);
      TracksTruthful(s, t.disk, e, t.commits);
    }
  }

  lemma ClosedStaysTruthful(m: Image, commits: seq<Commit>, c: Commit, r: Rid)
    requires Truthful(m, commits) && AllClosed(m) && r in m.journal && r != c.rid
    ensures TruthfulEntry(m.journal[r], r, commits + [c])
  {
    CommittedByMore(commits, c, r);
  }

  lemma WonTruthful(s: State, t: State, e: Entry, o: Outcome, slots: map<Purpose, Slot>)
    requires Inv(s) && Won(s, t, e, o, slots) && e.rid !in s.mem.journal && e.generation == |s.commits| + 1
    requires TruthfulState(s) && AllClosed(s.mem)
    ensures TruthfulState(t)
  {
    var c := Commit(e.rid, e.generation, slots);
    forall r | r in s.mem.journal && r != e.rid ensures TruthfulEntry(s.mem.journal[r], r, t.commits) {
      ClosedStaysTruthful(s.mem, s.commits, c, r);
    }
    CommittedByMore(s.commits, c, e.rid);
    hide Inv, SameRequest, CommittedBy, AllClosed, Truthful;
    SameGenerationNumber(t.mem.journal[e.rid], e);
    SameGenerationNumber(t.disk.journal[e.rid], e);
    TracksTruthful(s, t.mem, e, t.commits);
    TracksTruthful(s, t.disk, e, t.commits);
  }

  lemma PipelineTruthful(s: State, req: Request, env: Env, now: int)
    requires Shaped(req, env) && Admitted(s, req) && TruthfulState(s)
    requires RunPipeline(s, req, env, NextGeneration(s.mem), now).0.commits != s.commits ==> AllClosed(s.mem)
    ensures TruthfulState(RunPipeline(s, req, env, NextGeneration(s.mem), now).0)
  {
    AdmittedFacts(s, req);
    PipelineKeeps(s, req, env, now);
    var e := NewEntry(req, s.mem.generation + 1, now);
    var (t, o) := RunPipeline(s, req, env, s.mem.generation + 1, now);
    AdmittedIsNew(s, req);
    hide Inv, RunPipeline, Outside, BatchOf, Admitted, WellFormed, TruthfulState, Won, Lost;
    if Lost(s, t, e, o) {
      LostTruthful(s, t, e, o);
    } else {
      WonCommits(s, t, e, o);
      WonTruthful(s, t, e, o, t.mem.active);
    }
  }

  lemma WonCommits(s: State, t: State, e: Entry, o: Outcome)
    requires Won(s, t, e, o, t.mem.active)
    ensures t.commits != s.commits
  {
    assert |t.commits| == |s.commits| + 1;
  }

  lemma AdmittedIsNew(s: State, req: Request)
    requires Admitted(s, req)
    ensures Inv(s) && RidOf(req.requestId) !in s.mem.journal
  {
  }

  lemma SettlesTruthful(s: State, t: State, r: Rid, e1: Entry)
    requires Settles(s, t, r, e1) && !Terminal(s.mem.journal[r].phase) && TruthfulState(s)
    requires e1.phase == Succeeded <==> s.mem.journal[r].generation == |s.commits|
    ensures TruthfulState(t)
  {
    hide CommittedBy, SameRequest;
  }

  lemma RecoverTruthful(s: State, r: Rid, now: int)
    requires Inv(s) && r in s.mem.journal && !Terminal(s.mem.journal[r].phase) && TruthfulState(s)
    ensures TruthfulState(RecoverEntry(s, s.mem.journal[r], now).0) && VerdictRight(s, r, now)
  {
    RecoverKeeps(s, r, now);
    SameGeneration(s, s);
    var (t, e1) := RecoverEntry(s, s.mem.journal[r], now);
    SettlesTruthful(s, t, r, e1);
    LastGeneration(s);
  }

  lemma LastGeneration(s: State)
    requires Inv(s)
    ensures s.mem.generation == |s.commits|
  {
  }

  lemma ResumeTruthful(s: State, req: Request, env: Env)
    requires Inv(s) && RidOf(req.requestId) in s.mem.journal && TruthfulState(s)
    ensures TruthfulState(Resume(s, s.mem.journal[RidOf(req.requestId)], req, env).0)
  {
    hide Inv, RecoverEntry, TruthfulState, VerdictRight;
    var rid := RidOf(req.requestId);
    if !Terminal(s.mem.journal[rid].phase) { RecoverTruthful(s, rid, NowMs(env.recovery)); }
  }

  lemma ImportTruthful(s: State, req: Request, env: Env)
    requires Inv(s) && Shaped(req, env) && TruthfulState(s)
    requires Import(s, req, env).0.commits != s.commits ==> OthersClosed(s.mem, RidOf(req.requestId))
    ensures TruthfulState(Import(s, req, env).0)
  {
    hide Inv, RunPipeline, Resume, PreCheck, ValidateVersionAndTime, NextGeneration, Admitted, TruthfulState;
    if PreCheck(req, env) == Success {
      if RidOf(req.requestId) in s.mem.journal {
        ResumeTruthful(s, req, env);
      } else if ValidateVersionAndTime(s.mem, req.items, env.validation) == Success {
        Admission(s, req, env);
        PipelineTruthful(s, req, env, NowMs(env.start));
      }
    }
  }

  lemma ImportKl1Truthful(s: State, req: Request, ctx: Kl1Context, env: Env)
    requires Inv(s) && Shaped(req, env) && TruthfulState(s)
    requires ImportKl1(s, req, ctx, env).0.commits != s.commits ==> OthersClosed(s.mem, RidOf(req.requestId))
    ensures TruthfulState(ImportKl1(s, req, ctx, env).0)
  {
    hide Inv, RunPipeline, Resume, PreCheck, ValidateVersionAndTime, NextGeneration, Admitted, TruthfulState,
         HasResidue, LeaseCode, ItemsCover;
    if Kl1PreCheck(req, ctx, env) == Success {
      if RidOf(req.requestId) in s.mem.journal {
        ResumeTruthful(s, req, env);
      } else if !HasResidue(s, RidOf(req.requestId)) && Kl1Admission(s, req, ctx, env) == Success {
        Admission(s, req, env);
        PipelineTruthful(s, req, env, NowMs(env.start));
      }
    }
  }

  lemma RecoverAllTruthful(s: State, listed: map<Rid, Entry>, rids: seq<Rid>, clock: seq<int>)
    requires Inv(s) && |clock| == |rids| && TruthfulState(s)
    requires forall i, j :: 0 <= i < j < |rids| ==> rids[i] != rids[j]
    requires forall r :: r in rids ==> r in listed && r in s.mem.journal && s.mem.journal[r] == listed[r]
    ensures TruthfulState(RecoverAll(s, listed, rids, clock))
    decreases |rids|
  {
    hide Inv, RecoverEntry, Settled, TruthfulState, VerdictRight;
    if rids != [] {
      var r := rids[0];
      var s1 := if Terminal(listed[r].phase) then s else RecoverEntry(s, listed[r], clock[0]).0;
      RecoverNext(s, s1, r, clock[0]);
      if !Terminal(listed[r].phase) { RecoverTruthful(s, r, clock[0]); }
      assert forall q :: q in rids[1..] ==> q in rids && q != r;
      RecoverAllTruthful(s1, listed, rids[1..], clock[1..]);
    }
  }

  lemma StepTruthful(s: State, step: Step)
    requires Inv(s) && Enabled(s, step) && TruthfulState(s) && Disciplined(s, step)
    ensures TruthfulState(Take(s, step).0)
  {
    hide Inv, Import, ImportKl1, RecoverAll, Truthful, Progressed;
    match step
    case DoImport(req, env, script) =>
      ScriptIrrelevant(s, script);
      ImportTruthful(s.(script := script), req, env);
    case DoImportKl1(req, ctx, env, script) =>
      ScriptIrrelevant(s, script);
      ImportKl1Truthful(s.(script := script), req, ctx, env);
    case DoRestart(script, rids, clock) =>
      PowerOnKeeps(s, script);
      RecoverAllTruthful(PowerOn(s, script), s.disk.journal, rids, clock);
  }

  lemma {:induction false} RunTruthful(s: State, steps: seq<Step>)
    requires Inv(s) && Feasible(s, steps) && TruthfulState(s) && DisciplinedRun(s, steps)
    ensures Inv(StateAfter(s, steps)) && TruthfulState(StateAfter(s, steps))
    decreases |steps|
  {
    hide Inv, Take, Enabled, TruthfulState, Disciplined, Progressed;
    if steps != [] {
      StepKeeps(s, steps[0]);
      StepTruthful(s, steps[0]);
      RunTruthful(Take(s, steps[0]).0, steps[1..]);
    }
  }

  /** Over every run, with every pattern of power losses, in which no request commits while
      another is open: an entry is closed as SUCCEEDED only if its own batch was committed
      and as FAILED only if not, and recovery of an open entry, whenever it happens and
      whatever the clock says, gives the right verdict. */
  lemma RecoveryTellsTheTruth(steps: seq<Step>, r: Rid, now: int)
    requires Feasible(INITIAL, steps) && DisciplinedRun(INITIAL, steps)
    requires r in StateAfter(INITIAL, steps).mem.journal
    ensures var s := StateAfter(INITIAL, steps);
            && (s.mem.journal[r].phase == Succeeded ==> CommittedBy(s.commits, r))
            && (s.mem.journal[r].phase == Failed ==> !CommittedBy(s.commits, r))
            && (!Terminal(s.mem.journal[r].phase) ==> VerdictRight(s, r, now))
  {
    hide Inv, Feasible, StateAfter, DisciplinedRun, VerdictRight, CommittedBy;
    InitialGood();
    RunTruthful(INITIAL, steps);
    var s := StateAfter(INITIAL, steps);
    if !Terminal(s.mem.journal[r].phase) { RecoverTruthful(s, r, now); }
  }

  /** Everything memory says about requests is right, and every verdict recovery would give
      now is. */
  ghost predicate Honest(s: State, now: int) {
    forall r :: r in s.mem.journal ==>
      && (s.mem.journal[r].phase == Succeeded ==> CommittedBy(s.commits, r))
      && (s.mem.journal[r].phase == Failed ==> !CommittedBy(s.commits, r))
      && (!Terminal(s.mem.journal[r].phase) ==> VerdictRight(s, r, now))
  }

  ghost predicate HonestThroughout(s: State, steps: seq<Step>, now: int)
    requires Feasible(s, steps)
    decreases |steps|
  {
    Honest(s, now) && (steps == [] || HonestThroughout(Take(s, steps[0]).0, steps[1..], now))
  }

  lemma TruthfulIsHonest(s: State, now: int)
    requires Inv(s) && TruthfulState(s)
    ensures Honest(s, now)
  {
    hide Inv, VerdictRight, CommittedBy;
    forall r | r in s.mem.journal && !Terminal(s.mem.journal[r].phase) ensures VerdictRight(s, r, now) {
      RecoverTruthful(s, r, now);
    }
  }

  /** A commit while another request is open makes memory dishonest at once. */
  lemma UndisciplinedIsDishonest(s: State, step: Step, now: int)
    requires Inv(s) && TruthfulState(s) && Enabled(s, step) && !Disciplined(s, step)
    ensures !Honest(Take(s, step).0, now)
  {
    hide Inv, VerdictRight, CommittedBy, Take, Progressed;
    if IsImport(step) {
      DisciplineIsNeeded(s, step, now);
      var rid := RidOf(RequestOf(step).requestId);
      var t := Take(s, step).0;
      var r :| r in t.mem.journal && r != rid && !Terminal(t.mem.journal[r].phase) && !VerdictRight(t, r, now);
    } else {
      RestartCommitsNothing(s, step);
    }
  }

  lemma RestartCommitsNothing(s: State, step: Step)
    requires Inv(s) && Enabled(s, step) && !IsImport(step)
    ensures Take(s, step).0.commits == s.commits
  {
    hide Inv, Restart;
    RestartSettles(s, step.script, step.rids, step.clock);
  }

  /** The discipline is exactly what is needed: from the start on, everything memory and
      recovery say about requests is right at every point of a run if and only if in that run
      no request commits while another is open. */
  lemma {:induction false} HonestExactlyWhenDisciplined(s: State, steps: seq<Step>, now: int)
    requires Inv(s) && TruthfulState(s) && Feasible(s, steps)
    ensures HonestThroughout(s, steps, now) <==> DisciplinedRun(s, steps)
    decreases |steps|
  {
    hide Inv, Honest, Take, Enabled, TruthfulState, Disciplined, Progressed;
    TruthfulIsHonest(s, now);
    if steps != [] {
      var t := Take(s, steps[0]).0;
      StepKeeps(s, steps[0]);
      if Disciplined(s, steps[0]) {
        StepTruthful(s, steps[0]);
        HonestExactlyWhenDisciplined(t, steps[1..], now);
      } else {
        UndisciplinedIsDishonest(s, steps[0], now);
        NotFromTheStart(t, steps[1..], now);
      }
    }
  }

  lemma NotFromTheStart(t: State, steps: seq<Step>, now: int)
    requires Feasible(t, steps) && !Honest(t, now)
    ensures !HonestThroughout(t, steps, now)
  {
    hide Honest, Take, Enabled;
  }

  lemma RunsAreHonestExactlyWhenDisciplined(steps: seq<Step>, now: int)
    requires Feasible(INITIAL, steps)
    ensures HonestThroughout(INITIAL, steps, now) <==> DisciplinedRun(INITIAL, steps)
  {
    hide Inv, Feasible, HonestThroughout, DisciplinedRun;
    InitialGood();
    HonestExactlyWhenDisciplined(INITIAL, steps, now);
  }

  /** One step of it: when a new request commits, the verdicts on
      all other open entries are right afterwards if and only if there were none. */
  lemma DisciplineIsNeeded(s: State, step: Step, now: int)
    requires Inv(s) && TruthfulState(s) && IsImport(step) && Enabled(s, step)
    requires Take(s, step).0.commits != s.commits
    ensures var t := Take(s, step).0;
            var rid := RidOf(RequestOf(step).requestId);
            (forall r :: r in t.mem.journal && r != rid && !Terminal(t.mem.journal[r].phase) ==>
               VerdictRight(t, r, now))
            <==> (forall r :: r in s.mem.journal && r != rid ==> Terminal(s.mem.journal[r].phase))
  {
    hide Inv, Take, VerdictRight, BatchOf, Progressed, CommittedBy;
    var (t, o) := Take(s, step);
    var rid := RidOf(RequestOf(step).requestId);
    StepKeeps(s, step);
    CommitIsWholeBatch(s, step);
    LastGeneration(s);
    OthersKept(s, step);
    forall r | r in s.mem.journal && r != rid && !Terminal(s.mem.journal[r].phase) ensures !VerdictRight(t, r, now) {
      OpenEntryMisjudged(s, t, r, now);
    }
  }

  lemma OthersKept(s: State, step: Step)
    requires Inv(s) && IsImport(step) && Enabled(s, step)
    ensures var t := Take(s, step).0;
            var rid := RidOf(RequestOf(step).requestId);
            && (forall r :: r in s.mem.journal && r != rid ==>
                  r in t.mem.journal && t.mem.journal[r] == s.mem.journal[r])
            && (forall r :: r in t.mem.journal && r != rid ==> r in s.mem.journal)
  {
    hide Inv, Import, ImportKl1, BatchOf, Progressed;
    var s1 := s.(script := step.script);
    ScriptIrrelevant(s, step.script);
    match step {
      case DoImport(req, env, _) => ImportEffect(s1, req, env);
      case DoImportKl1(req, ctx, env, _) => ImportKl1Effect(s1, req, ctx, env);
    }
  }

  lemma OpenEntryMisjudged(s: State, t: State, r: Rid, now: int)
    requires Inv(s) && Inv(t) && Truthful(s.mem, s.commits)
    requires r in s.mem.journal && !Terminal(s.mem.journal[r].phase)
    requires r in t.mem.journal && t.mem.journal[r] == s.mem.journal[r]
    requires |t.commits| == |s.commits| + 1 && s.commits <= t.commits && t.commits[|s.commits|].rid != r
    ensures !VerdictRight(t, r, now)
  {
    var g := s.mem.journal[r].generation;
    hide Inv, VerdictRight, CommittedBy, TruthfulEntry, Truthful;
    OpenEntryPlace(s, r);
    VerdictExactly(t, r, now);
    MoreCommits(s.commits, t.commits);
  }

  lemma MoreCommits(older: seq<Commit>, newer: seq<Commit>)
    requires older <= newer
    ensures forall i :: 0 <= i < |older| ==> newer[i] == older[i]
  {
  }

  /** In a truthful state an open entry is the last committed one, or waits for the next. */
  lemma OpenEntryPlace(s: State, r: Rid)
    requires Inv(s) && Truthful(s.mem, s.commits) && r in s.mem.journal && !Terminal(s.mem.journal[r].phase)
    ensures var g := s.mem.journal[r].generation;
            g == |s.commits| + 1 || (1 <= g == |s.commits| && s.commits[g - 1].rid == r)
  {
    GenerationBound(s, r);
    OwnCommit(s, r);
    hide Inv, CommittedBy;
    assert TruthfulEntry(s.mem.journal[r], r, s.commits);
  }

  lemma GenerationBound(s: State, r: Rid)
    requires Inv(s) && r in s.mem.journal
    ensures 1 <= s.mem.journal[r].generation <= |s.commits| + 1
  {
  }
}
