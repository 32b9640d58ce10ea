/** How often an import saves: every phase and every unwrapped key is written through before the
    next step. */
module ProvisioningSaves {
  import opened Wrappers
  import opened ProviderState
  import opened Provisioning
  import opened ProvisioningInvariants
  import opened ProvisioningCalls
  import opened ProvisioningRuns
  import opened ProvisioningTheorems
  import opened ProvisioningProgress

  /** The next `n` saves are done. */
  ghost predicate NextSaved(s: State, n: nat) {
    s.alive && n <= |s.script| && forall i :: 0 <= i < n ==> s.script[i] == Saved
  }

  /** `t` comes from `s` by exactly `n` saves. */
  ghost predicate Took(s: State, t: State, n: nat) { t.alive && n <= |s.script| && t.script == s.script[n..] }

  lemma NothingTaken(s: State)
    ensures s.alive ==> Took(s, s, 0)
    ensures NextSaved(s, 0) <==> s.alive
    ensures forall n :: NextSaved(s, n) ==> s.alive
  {
  }

  lemma OneSave(s: State, n: nat)
    requires NextSaved(s, n) && n >= 1
    ensures var (t, rc) := SaveState(s); Took(s, t, 1) && NextSaved(t, n - 1) && rc == Success
  {
  }

  lemma Further(s: State, t: State, u: State, a: nat, b: nat)
    requires Took(s, t, a) && Took(t, u, b)
    ensures Took(s, u, a + b)
  {
    assert s.script[a..][b..] == s.script[a + b..];
  }

  lemma OneJournal(s: State, e: Entry, n: nat)
    requires NextSaved(s, n) && n >= 1
    ensures var t := SaveJournal(s, e).0; Took(s, t, 1) && NextSaved(t, n - 1)
  {
    OneSave(s.(mem := s.mem.(journal := s.mem.journal[e.rid := e])), n);
  }

  lemma OneUnwrap(s: State, item: Item, generation: nat, u: Unwrap, n: nat)
    requires NextSaved(s, n) && n >= 1 && UnwrapCode(item, u) == Success
    ensures var (t, rc) := UnwrapToStaging(s, item, generation, u);
            Took(s, t, 1) && NextSaved(t, n - 1) && rc == Success
  {
    OneSave(s.(mem := s.mem.(staging := s.mem.staging[item.purpose := StagedSlot(item, generation, u.key)],
                             stagingGeneration := generation)), n);
  }

  lemma {:induction false} StageSaves(s: State, e: Entry, req: Request, env: Env, i: nat, n: nat)
    requires Shaped(req, env) && i <= |req.items| && NextSaved(s, n) && n >= 2 * (|req.items| - i)
    requires StageFrom(s, e, req, env, i).Going?
    ensures var r := StageFrom(s, e, req, env, i);
            Took(s, r.s, 2 * (|req.items| - i)) && NextSaved(r.s, n - 2 * (|req.items| - i))
    decreases |req.items| - i
  {
    hide SaveState, SaveJournal, EndOn, UnwrapCode, UnwrapToStaging, NextSaved, Took;
    if i == |req.items| {
      NothingTaken(s);
    } else {
      GoingUnwraps(s, e, req, env, i);
      OneUnwrap(s, req.items[i], e.generation, env.unwraps[i], n);
      var s1 := UnwrapToStaging(s, req.items[i], e.generation, env.unwraps[i]).0;
      var e1 := if req.items[i].purpose == UplinkAead then e.(phase := UplinkStaged) else e;
      OneJournal(s1, e1, n - 1);
      var s2 := SaveJournal(s1, e1).0;
      StageSaves(s2, e1, req, env, i + 1, n - 2);
      Further(s, s1, s2, 1, 1);
      Further(s, s2, StageFrom(s, e, req, env, i).s, 2, 2 * (|req.items| - i - 1));
    }
  }

  lemma GoingUnwraps(s: State, e: Entry, req: Request, env: Env, i: nat)
    requires Shaped(req, env) && i < |req.items| && StageFrom(s, e, req, env, i).Going?
    ensures UnwrapCode(req.items[i], env.unwraps[i]) == Success
  {
    hide SaveState, EndOn;
  }

  lemma {:induction false} LedgerSaves(s: State, e: Entry, generation: nat, i: nat, n: nat)
    requires i <= |e.items| && NextSaved(s, n) && n >= |e.items| - i
    ensures var t := UpdateLedger(s, e, generation, i); Took(s, t, |e.items| - i) && NextSaved(t, n - (|e.items| - i))
    decreases |e.items| - i
  {
    if i < |e.items| {
      var s1 := LedgerPut(s, e.items[i].purpose, RowOf(e, i, generation));
      assert Took(s, s1, 1) && NextSaved(s1, n - 1);
      LedgerSaves(s1, e, generation, i + 1, n - 1);
      Further(s, s1, UpdateLedger(s, e, generation, i), 1, |e.items| - i - 1);
    }
  }

  lemma OneCommit(s: State, generation: nat, owner: Rid, n: nat)
    requires NextSaved(s, n) && n >= 1 && CommitBatch(s, generation, owner).1 == Success
    ensures var t := CommitBatch(s, generation, owner).0; Took(s, t, 1) && NextSaved(t, n - 1)
  {
    hide MarkerOf;
  }

  lemma FinishSaves(s: State, e: Entry, env: Env, now: int, n: nat)
    requires |e.items| == |env.proofs| == |env.unwraps| && NextSaved(s, n) && n >= 1 + |e.items|
    requires Finish(s, e, env, now).1.code == Success
    ensures Took(s, Finish(s, e, env, now).0, 1 + |e.items|)
  {
    hide SaveState, SaveJournal, UpdateLedger, FinishStatus, ProofsMade;
    var e1 := Finished(s.mem, e, env, now);
    var s1 := SaveJournal(s, e1).0;
    OneJournal(s, e1, n);
    LedgerSaves(s1, e1, e1.generation, 0, n - 1);
    Further(s, s1, UpdateLedger(s1, e1, e1.generation, 0), 1, |e.items|);
  }

  lemma CommitPhaseSaves(s: State, e: Entry, env: Env, now: int, n: nat)
    requires |e.items| == |env.proofs| == |env.unwraps| && NextSaved(s, n) && n >= 3 + |e.items|
    requires CommitPhase(s, e, env, now).1.code == Success
    ensures Took(s, CommitPhase(s, e, env, now).0, 3 + |e.items|)
  {
    hide SaveState, SaveJournal, CommitBatch, Finish, EndOn;
    var e1 := e.(phase := Committing);
    var s1 := SaveJournal(s, e1).0;
    OneJournal(s, e1, n);
    var (s2, rc) := CommitBatch(s1, e.generation, e.rid);
    CommittedOnSuccess(s2, e1, rc);
    OneCommit(s1, e.generation, e.rid, n - 1);
    FinishSaves(s2, e1, env, now, n - 2);
    Further(s, s1, s2, 1, 1);
    Further(s, s2, Finish(s2, e1, env, now).0, 2, 1 + |e.items|);
  }

  lemma CommittedOnSuccess(s: State, e: Entry, rc: Code)
    ensures rc != Success ==> EndOn(s, e, rc).1.code != Success
  {
  }

  /** A pipeline that succeeds over `n` items saves 5 + 3 n times: its entry on start, with both
      staged, on committing and on success, the commit itself, each unwrapped key with its entry
      after it, and each row of the ledger. */
  lemma PipelineSaves(s: State, req: Request, env: Env, generation: nat, now: int, n: nat)
    requires Shaped(req, env) && NextSaved(s, n) && n >= 5 + 3 * |req.items|
    requires RunPipeline(s, req, env, generation, now).1.code == Success
    ensures Took(s, RunPipeline(s, req, env, generation, now).0, 5 + 3 * |req.items|)
  {
    hide SaveState, SaveJournal, CommitPhase, StageFrom, VerifyFrom, Abandon, NextSaved, Took;
    var e := NewEntry(req, generation, now);
    var k := |req.items|;
    var s1 := SaveJournal(s, e).0;
    OneJournal(s, e, n);
    EndedFails(s1, e, req, env, 0);
    match StageFrom(s1, e, req, env, 0)
    case Ended(_, _) =>
    case Going(s2, e2) =>
      StageSaves(s1, e, req, env, 0, n - 1);
      var e3 := e2.(phase := BothStaged);
      var s3 := SaveJournal(s2, e3).0;
      OneJournal(s2, e3, n - 1 - 2 * k);
      VerifyFails(s3, req, env, e3);
      CommitPhaseSaves(s3, e3, env, now, n - 2 - 2 * k);
      Further(s, s1, s2, 1, 2 * k);
      Further(s, s2, s3, 1 + 2 * k, 1);
      Further(s, s3, CommitPhase(s3, e3, env, now).0, 2 + 2 * k, 3 + k);
  }

  /** A first SUCCESS, over either interface, takes exactly eleven saves. */
  lemma FirstSuccessTakesElevenSaves(s: State, step: Step)
    requires Inv(s) && IsImport(step) && Enabled(s, step) && RidOf(RequestOf(step).requestId) !in s.mem.journal
    requires Take(s, step).1.code == Success
    requires |step.script| >= 11 && forall i :: 0 <= i < 11 ==> step.script[i] == Saved
    ensures Take(s, step).0.alive && Take(s, step).0.script == step.script[11..]
  {
    hide Inv, RunPipeline, PreCheck, ValidateVersionAndTime, HasResidue, LeaseCode, ItemsCover, Progressed,
         NextGeneration;
    SuccessIsReported(s, step);
    var (req, env) := (RequestOf(step), EnvOf(step));
    var s1 := s.(script := step.script);
    SuccessHasTwo(s, step);
    PipelineSaves(s1, req, env, NextGeneration(s1.mem), NowMs(env.start), 11);
  }

  lemma SuccessHasTwo(s: State, step: Step)
    requires IsImport(step) && Enabled(s, step) && Take(s, step).1.code == Success
    ensures |RequestOf(step).items| == 2
  {
    hide RunPipeline, Resume, ValidateVersionAndTime, Kl1Admission, HasResidue;
    StructureAccepts(RequestOf(step));
  }
}
