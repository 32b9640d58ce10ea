/** Do status queries tell the truth? A status query compares the active slot with the ledger's
    row. The row is written after the journal has closed the entry, with a save of its own, so
    the two can differ. */
module ProvisioningLedger {
  import opened ProviderState
  import opened Provisioning
  import opened ProvisioningInvariants
  import opened ProvisioningCalls
  import opened ProvisioningRecovery
  import opened ProvisioningRuns
  import opened ProvisioningTheorems
  import opened ProvisioningVerdicts
  import opened ProvisioningProgress

  /** What a status query answers for one purpose. */
  function StatusOf(s: State, p: Purpose): KeyState {
    var slot := QuerySlot(s.mem, p);
    if !slot.present && p !in s.ledger then Missing
    else if slot.present && p in s.ledger && slot.state == ActiveKey && s.ledger[p].version == slot.version
            && s.ledger[p].keyIdDigest == s.mem.active[p].keyIdDigest
            && s.ledger[p].algorithm == s.mem.active[p].algorithm
    then ActiveKey
    else InvalidKey
  }

  // ---- where rows come from ----

  /** The row is the one the closed entry `e` writes for `p`. */
  ghost predicate FromEntry(row: LedgerRow, p: Purpose, e: Entry) {
    exists j :: 0 <= j < |e.items| && e.items[j].purpose == p && row == RowOf(e, j, e.generation)
  }

  /** Every row of `after` is one of `before` for the same purpose, or one of `e`. */
  ghost predicate RowsKept(before: map<Purpose, LedgerRow>, after: map<Purpose, LedgerRow>, e: Entry) {
    forall p :: p in after ==> (p in before && after[p] == before[p]) || FromEntry(after[p], p, e)
  }

  /** The same for what the ledger has saved, which takes whole memories. */
  ghost predicate SavedRowsKept(s: State, t: State, e: Entry) {
    forall p :: p in t.ledgerDisk ==>
      || (p in s.ledgerDisk && t.ledgerDisk[p] == s.ledgerDisk[p])
      || (p in s.ledger && t.ledgerDisk[p] == s.ledger[p])
      || FromEntry(t.ledgerDisk[p], p, e)
  }

  ghost predicate HasRow(ledger: map<Purpose, LedgerRow>, p: Purpose, e: Entry) {
    p in ledger && FromEntry(ledger[p], p, e)
  }

  ghost predicate SameLedger(s: State, t: State) { t.ledger == s.ledger && t.ledgerDisk == s.ledgerDisk }

  ghost predicate RowsWritten(s: State, t: State, e: Entry) {
    && RowsKept(s.ledger, t.ledger, e) && SavedRowsKept(s, t, e)
    && (forall p :: HasPurpose(e.items, p) ==> HasRow(t.ledger, p, e))
  }

  /** The entry has been closed as SUCCEEDED under the last generation, and the ledger's memory
      has taken all its rows. */
  ghost predicate Credited(s: State, t: State, rid: Rid) {
    && rid in t.mem.journal && t.mem.journal[rid].phase == Succeeded
    && t.mem.journal[rid].generation == |t.commits|
    && RowsWritten(s, t, t.mem.journal[rid])
  }

  /** No row is written, and nothing is newly closed as SUCCEEDED. */
  ghost predicate NothingCredited(s: State, t: State) {
    && SameLedger(s, t)
    && (forall r :: r in t.mem.journal && t.mem.journal[r].phase == Succeeded ==>
          r in s.mem.journal && s.mem.journal[r].phase == Succeeded)
  }

  /** The rows of `e` from item `i` on, put one by one. */
  lemma {:induction false} UpdateRows(s: State, e: Entry, i: nat)
    requires i <= |e.items|
    ensures var t := UpdateLedger(s, e, e.generation, i);
            && RowsKept(s.ledger, t.ledger, e) && SavedRowsKept(s, t, e)
            && (forall p :: HasRow(s.ledger, p, e) ==> HasRow(t.ledger, p, e))
            && (forall j :: i <= j < |e.items| ==> HasRow(t.ledger, e.items[j].purpose, e))
    decreases |e.items| - i
  {
    if i < |e.items| {
      var row := RowOf(e, i, e.generation);
      assert FromEntry(row, e.items[i].purpose, e);
      hide FromEntry;
      UpdateRows(LedgerPut(s, e.items[i].purpose, row), e, i + 1);
    }
  }

  lemma UpdateWrites(s: State, e: Entry)
    ensures RowsWritten(s, UpdateLedger(s, e, e.generation, 0), e)
  {
    UpdateRows(s, e, 0);
    hide FromEntry, UpdateLedger, RowsKept, SavedRowsKept, HasRow;
  }

  // ---- one call ----

  lemma RollbackKeepsLedger(s: State, generation: nat)
    ensures SameLedger(s, RollbackStaging(s, generation).0)
  {
  }

  lemma JournalKeepsLedger(s: State, e: Entry)
    ensures var t := SaveJournal(s, e).0;
            SameLedger(s, t) && t.mem.journal == s.mem.journal[e.rid := e] && t.commits == s.commits
  {
  }

  lemma EndKeepsLedger(s: State, e: Entry, rc: Code)
    ensures SameLedger(s, EndOn(s, e, rc).0) && SameLedger(s, Abandon(s, e, rc).0)
  {
    hide SaveState, SaveJournal, RollbackStaging;
    RollbackKeepsLedger(s, e.generation);
    JournalKeepsLedger(RollbackStaging(s, e.generation).0, e.(phase := Failed, lastError := FromCode(rc)));
    JournalKeepsLedger(s, e.(phase := OutcomeUnknown, lastError := FromCode(rc)));
  }

  lemma UnwrapKeepsLedger(s: State, item: Item, generation: nat, u: Unwrap)
    ensures SameLedger(s, UnwrapToStaging(s, item, generation, u).0)
  {
    hide UnwrapCode;
  }

  lemma StageKeepsLedger(s: State, e: Entry, req: Request, env: Env, i: nat)
    requires Shaped(req, env) && i <= |req.items|
    ensures SameLedger(s, StageFrom(s, e, req, env, i).s)
    decreases |req.items| - i
  {
    hide SaveState, UnwrapToStaging, SaveJournal, EndOn;
    if i < |req.items| {
      var (s1, rc) := UnwrapToStaging(s, req.items[i], e.generation, env.unwraps[i]);
      UnwrapKeepsLedger(s, req.items[i], e.generation, env.unwraps[i]);
      if rc == Success {
        var e1 := if req.items[i].purpose == UplinkAead then e.(phase := UplinkStaged) else e;
        JournalKeepsLedger(s1, e1);
        StageKeepsLedger(SaveJournal(s1, e1).0, e1, req, env, i + 1);
      } else {
        EndKeepsLedger(s1, e, rc);
      }
    }
  }

  lemma CommitKeepsLedger(s: State, generation: nat, owner: Rid)
    ensures SameLedger(s, CommitBatch(s, generation, owner).0)
  {
  }

  lemma FinishLedger(s: State, e: Entry, env: Env, now: int)
    requires |e.items| == |env.proofs| == |env.unwraps|
    ensures var (t, o) := Finish(s, e, env, now);
            if o.code == Success then e.rid in t.mem.journal && RowsWritten(s, t, t.mem.journal[e.rid])
            else SameLedger(s, t)
  {
    hide SaveState, SaveJournal, RowsWritten, UpdateLedger, FinishStatus, ProofsMade;
    var e1 := Finished(s.mem, e, env, now);
    JournalKeepsLedger(s, e1);
    JournalKeepsLedger(s, e1.(phase := OutcomeUnknown, lastError := AttestationFailed));
    var s1 := SaveJournal(s, e1).0;
    UpdateWrites(s1, e1);
    LedgerKeeps(s1, e1, e1.generation, 0);
    SameWritten(s, s1, UpdateLedger(s1, e1, e1.generation, 0), e1);
  }

  lemma SameWritten(s: State, s1: State, t: State, e: Entry)
    requires SameLedger(s, s1) && RowsWritten(s1, t, e)
    ensures RowsWritten(s, t, e)
  {
  }

  lemma CommitPhaseRows(s: State, e: Entry, env: Env, now: int)
    requires |e.items| == |env.proofs| == |env.unwraps|
    ensures var (t, o) := CommitPhase(s, e, env, now);
            if o.code == Success then e.rid in t.mem.journal && RowsWritten(s, t, t.mem.journal[e.rid])
            else SameLedger(s, t)
  {
    hide SaveState, SaveJournal, RowsWritten, CommitBatch, EndOn, Finish;
    var e1 := e.(phase := Committing);
    JournalKeepsLedger(s, e1);
    var s1 := SaveJournal(s, e1).0;
    CommitKeepsLedger(s1, e.generation, e.rid);
    var (s2, rc) := CommitBatch(s1, e.generation, e.rid);
    if rc == Success {
      FinishLedger(s2, e1, env, now);
      var (t, o) := Finish(s2, e1, env, now);
      if o.code == Success { SameWritten(s, s2, t, t.mem.journal[e.rid]); }
    } else {
      EndKeepsLedger(s2, e1, rc);
      EndFails(s2, e1, rc);
    }
  }

  lemma EndFails(s: State, e: Entry, rc: Code)
    requires rc != Success
    ensures EndOn(s, e, rc).1.code != Success && Abandon(s, e, rc).1.code != Success
  {
  }

  /** The ledger is written at the very end of a pipeline that succeeds, or not at all. */
  lemma PipelineRows(s: State, req: Request, env: Env, generation: nat, now: int)
    requires Shaped(req, env)
    ensures var (t, o) := RunPipeline(s, req, env, generation, now);
            var rid := RidOf(req.requestId);
            if o.code == Success then rid in t.mem.journal && RowsWritten(s, t, t.mem.journal[rid])
            else SameLedger(s, t)
  {
    hide SaveState, SaveJournal, RowsWritten, StageFrom, CommitPhase, Abandon, VerifyFrom;
    var e := NewEntry(req, generation, now);
    JournalKeepsLedger(s, e);
    var s1 := SaveJournal(s, e).0;
    StageKeepsLedger(s1, e, req, env, 0);
    EndedFails(s1, e, req, env, 0);
    match StageFrom(s1, e, req, env, 0)
    case Ended(_, _) =>
    case Going(s2, e2) =>
      var e3 := e2.(phase := BothStaged);
      JournalKeepsLedger(s2, e3);
      var s3 := SaveJournal(s2, e3).0;
      var rc := VerifyFrom(s3.mem, req, env, 0);
      if rc != Success {
        EndKeepsLedger(s3, e3, rc);
        EndFails(s3, e3, rc);
      } else {
        CommitPhaseRows(s3, e3, env, now);
        var (t, o) := CommitPhase(s3, e3, env, now);
        if o.code == Success { SameWritten(s, s3, t, t.mem.journal[e.rid]); }
      }
  }

  lemma PipelineCredits(s: State, req: Request, env: Env, now: int)
    requires Shaped(req, env) && Admitted(s, req)
    ensures var (t, o) := RunPipeline(s, req, env, NextGeneration(s.mem), now);
            NothingCredited(s, t) || Credited(s, t, RidOf(req.requestId))
  {
    AdmittedFacts(s, req);
    AdmittedIsNew(s, req);
    PipelineKeeps(s, req, env, now);
    PipelineRows(s, req, env, NextGeneration(s.mem), now);
    var e := NewEntry(req, s.mem.generation + 1, now);
    var (t, o) := RunPipeline(s, req, env, s.mem.generation + 1, now);
    hide Inv, RunPipeline, BatchOf, Admitted, WellFormed, RowsWritten, NewEntry;
    PipelineEntry(s, t, e, o);
  }

  lemma PipelineEntry(s: State, t: State, e: Entry, o: Outcome)
    requires Lost(s, t, e, o) || Won(s, t, e, o, t.mem.active)
    requires Inv(s) && e.rid !in s.mem.journal && e.generation == |s.commits| + 1
    requires if o.code == Success then e.rid in t.mem.journal && RowsWritten(s, t, t.mem.journal[e.rid])
             else SameLedger(s, t)
    ensures NothingCredited(s, t) || Credited(s, t, e.rid)
  {
    hide Inv, RowsWritten, Acks;
  }

  lemma ForwardCredits(s: State, e: Entry, now: int)
    requires BothActiveAt(s.mem, e.generation) && e.generation == |s.commits|
    ensures Credited(s, RecoverEntry(s, e, now).0, e.rid)
  {
    hide BothActiveAt, SaveState, SaveJournal, RowsWritten, UpdateLedger, AllActive;
    var e1 := e.(phase := Succeeded, committedAt := now, items := AllActive(e.items));
    JournalKeepsLedger(s, e1);
    var s1 := SaveJournal(s, e1).0;
    UpdateWrites(s1, e1);
    LedgerKeeps(s1, e1, e1.generation, 0);
    SameWritten(s, s1, UpdateLedger(s1, e1, e1.generation, 0), e1);
  }

  lemma BackCredits(s: State, e: Entry, now: int)
    requires !BothActiveAt(s.mem, e.generation)
    ensures NothingCredited(s, RecoverEntry(s, e, now).0)
  {
    hide BothActiveAt, SaveState, SaveJournal, RollbackStaging;
    RollbackKeepsLedger(s, e.generation);
    RollbackKeepsJournal(s, e.generation);
    JournalKeepsLedger(RollbackStaging(s, e.generation).0, RecoverEntry(s, e, now).1);
  }

  lemma RollbackKeepsJournal(s: State, generation: nat)
    ensures RollbackStaging(s, generation).0.mem.journal == s.mem.journal
  {
  }

  lemma RecoverCredits(s: State, r: Rid, now: int)
    requires Inv(s) && r in s.mem.journal && !Terminal(s.mem.journal[r].phase)
    ensures var t := RecoverEntry(s, s.mem.journal[r], now).0;
            NothingCredited(s, t) || Credited(s, t, r)
  {
    var e := s.mem.journal[r];
    assert e.rid == r && e.generation >= 1;
    LastGeneration(s);
    BothActiveIsGeneration(s.mem, s.commits, e.generation);
    hide Inv, RecoverEntry, NothingCredited, Credited, BothActiveAt;
    if BothActiveAt(s.mem, e.generation) { ForwardCredits(s, e, now); } else { BackCredits(s, e, now); }
  }

  lemma ResumeCredits(s: State, req: Request, env: Env)
    requires Inv(s) && RidOf(req.requestId) in s.mem.journal
    ensures var rid := RidOf(req.requestId);
            var t := Resume(s, s.mem.journal[rid], req, env).0;
            NothingCredited(s, t) || Credited(s, t, rid)
  {
    hide Inv, RecoverEntry, Credited;
    var rid := RidOf(req.requestId);
    if !Terminal(s.mem.journal[rid].phase) { RecoverCredits(s, rid, NowMs(env.recovery)); }
  }

  /** One import: no row is written and nothing newly closed as SUCCEEDED, or the request's own
      entry is so closed and all its rows are in the ledger's memory. */
  lemma ImportCredits(s: State, req: Request, env: Env)
    requires Inv(s) && Shaped(req, env)
    ensures var t := Import(s, req, env).0;
            && (NothingCredited(s, t) || Credited(s, t, RidOf(req.requestId)))
            && (t.commits != s.commits ==> RidOf(req.requestId) !in s.mem.journal)
  {
    hide Inv, RunPipeline, Resume, PreCheck, ValidateVersionAndTime, NextGeneration, Admitted, Credited, Effect;
    if PreCheck(req, env) == Success {
      if RidOf(req.requestId) in s.mem.journal {
        ResumeCredits(s, req, env);
        ResumeEffect(s, req, env);
      } else if ValidateVersionAndTime(s.mem, req.items, env.validation) == Success {
        Admission(s, req, env);
        PipelineCredits(s, req, env, NowMs(env.start));
      }
    }
  }

  lemma ImportKl1Credits(s: State, req: Request, ctx: Kl1Context, env: Env)
    requires Inv(s) && Shaped(req, env)
    ensures var t := ImportKl1(s, req, ctx, env).0;
            && (NothingCredited(s, t) || Credited(s, t, RidOf(req.requestId)))
            && (t.commits != s.commits ==> RidOf(req.requestId) !in s.mem.journal)
  {
    hide Inv, RunPipeline, Resume, PreCheck, ValidateVersionAndTime, NextGeneration, Admitted, Credited, Effect,
         HasResidue, LeaseCode, ItemsCover;
    if Kl1PreCheck(req, ctx, env) == Success {
      if RidOf(req.requestId) in s.mem.journal {
        ResumeCredits(s, req, env);
        ResumeEffect(s, req, env);
      } else if !HasResidue(s, RidOf(req.requestId)) && Kl1Admission(s, req, ctx, env) == Success {
        Admission(s, req, env);
        PipelineCredits(s, req, env, NowMs(env.start));
      }
    }
  }

  lemma StepCredits(s: State, step: Step)
    requires Inv(s) && Enabled(s, step) && IsImport(step)
    ensures var t := Take(s, step).0;
            var rid := RidOf(RequestOf(step).requestId);
            && (NothingCredited(s, t) || Credited(s, t, rid))
            && (t.commits != s.commits ==> rid !in s.mem.journal)
  {
    hide Inv, Import, ImportKl1, Progressed, RowsWritten;
    ScriptIrrelevant(s, step.script);
    match step {
      case DoImport(req, env, script) => ImportCredits(s.(script := script), req, env);
      case DoImportKl1(req, ctx, env, script) => ImportKl1Credits(s.(script := script), req, ctx, env);
    }
    OtherScript(s, s.(script := step.script), Take(s, step).0, RidOf(RequestOf(step).requestId));
  }

  lemma OtherScript(s: State, s1: State, t: State, r: Rid)
    requires s1 == s.(script := s1.script)
    ensures NothingCredited(s1, t) ==> NothingCredited(s, t)
    ensures Credited(s1, t, r) ==> Credited(s, t, r)
  {
  }

  // ---- rows tell the truth ----

  /** The row is that of one commit, whose slot it describes. */
  ghost predicate RowTrue(row: LedgerRow, p: Purpose, commits: seq<Commit>) {
    && p in REQUIRED && 1 <= row.generation <= |commits|
    && commits[row.generation - 1].rid == row.rid
    && p in commits[row.generation - 1].slots
    && var slot := commits[row.generation - 1].slots[p];
       row.version == slot.version && row.keyIdDigest == slot.keyIdDigest && row.algorithm == slot.algorithm
  }

  ghost predicate RowsTrue(ledger: map<Purpose, LedgerRow>, commits: seq<Commit>) {
    forall p :: p in ledger ==> RowTrue(ledger[p], p, commits)
  }

  ghost predicate LedgerTrue(s: State) { RowsTrue(s.ledger, s.commits) && RowsTrue(s.ledgerDisk, s.commits) }

  lemma MoreRowsTrue(ledger: map<Purpose, LedgerRow>, older: seq<Commit>, newer: seq<Commit>)
    requires RowsTrue(ledger, older) && older <= newer
    ensures RowsTrue(ledger, newer)
  {
    MoreCommits(older, newer);
    forall p | p in ledger ensures RowTrue(ledger[p], p, newer) {
      assert RowTrue(ledger[p], p, older);
    }
  }

  /** The rows of an entry that was rightly closed as SUCCEEDED are those of its own commit. */
  lemma EntryRowTrue(s: State, r: Rid, row: LedgerRow, p: Purpose)
    requires Inv(s) && r in s.mem.journal && CommittedBy(s.commits, r) && FromEntry(row, p, s.mem.journal[r])
    ensures RowTrue(row, p, s.commits)
  {
    hide Inv, CommittedBy, FromEntry, ItemsMatch;
    OwnCommit(s, r);
    var g := s.mem.journal[r].generation;
    OwnItems(s, g - 1);
    RowMatches(s.mem.journal[r], row, p, s.commits[g - 1].slots);
  }

  lemma RowMatches(e: Entry, row: LedgerRow, p: Purpose, slots: map<Purpose, Slot>)
    requires ItemsMatch(e.items, slots) && FromEntry(row, p, e)
    ensures p in slots && row.version == slots[p].version && row.keyIdDigest == slots[p].keyIdDigest
    ensures row.algorithm == slots[p].algorithm && row.generation == e.generation && row.rid == e.rid
  {
    hide HasPurpose;
  }

  lemma OwnItems(s: State, i: nat)
    requires Inv(s) && i < |s.commits|
    ensures s.commits[i].slots.Keys == REQUIRED && s.commits[i].rid in s.mem.journal
    ensures ItemsMatch(s.mem.journal[s.commits[i].rid].items, s.commits[i].slots)
    ensures s.mem.journal[s.commits[i].rid].rid == s.commits[i].rid
  {
    hide ItemsMatch, Lags, StagingGood, ActiveGood;
    InvParts(s);
    assert GoodSlots(s.commits[i].slots, i + 1);
  }

  lemma CreditedTrue(s: State, t: State, r: Rid)
    requires Inv(t) && TruthfulState(t) && LedgerTrue(s) && s.commits <= t.commits
    requires NothingCredited(s, t) || Credited(s, t, r)
    ensures LedgerTrue(t)
  {
    hide Inv, Truthful, CommittedBy, Credited, NothingCredited, RowsTrue;
    MoreRowsTrue(s.ledger, s.commits, t.commits);
    MoreRowsTrue(s.ledgerDisk, s.commits, t.commits);
    if NothingCredited(s, t) {
      NoRowWritten(s, t);
    } else {
      CreditIsTruthful(s, t, r);
      WrittenRowsTrue(s, t, r);
    }
  }

  lemma NoRowWritten(s: State, t: State)
    requires NothingCredited(s, t)
    ensures SameLedger(s, t)
  {
  }

  lemma CreditIsTruthful(s: State, t: State, r: Rid)
    requires Credited(s, t, r) && Truthful(t.mem, t.commits)
    ensures r in t.mem.journal && CommittedBy(t.commits, r) && RowsWritten(s, t, t.mem.journal[r])
  {
    assert TruthfulEntry(t.mem.journal[r], r, t.commits);
  }

  lemma WrittenRowsTrue(s: State, t: State, r: Rid)
    requires Inv(t) && r in t.mem.journal && CommittedBy(t.commits, r) && RowsWritten(s, t, t.mem.journal[r])
    requires RowsTrue(s.ledger, t.commits) && RowsTrue(s.ledgerDisk, t.commits)
    ensures LedgerTrue(t)
  {
    hide Inv, CommittedBy, FromEntry, RowTrue;
    forall p | p in t.ledger ensures RowTrue(t.ledger[p], p, t.commits) {
      if FromEntry(t.ledger[p], p, t.mem.journal[r]) { EntryRowTrue(t, r, t.ledger[p], p); }
    }
    forall p | p in t.ledgerDisk ensures RowTrue(t.ledgerDisk[p], p, t.commits) {
      if FromEntry(t.ledgerDisk[p], p, t.mem.journal[r]) { EntryRowTrue(t, r, t.ledgerDisk[p], p); }
    }
  }

  // ---- whole runs ----

  lemma RecoverAllTrue(s: State, listed: map<Rid, Entry>, rids: seq<Rid>, clock: seq<int>)
    requires Inv(s) && |clock| == |rids| && TruthfulState(s) && LedgerTrue(s)
    requires forall i, j :: 0 <= i < j < |rids| ==> rids[i] != rids[j]
    requires forall r :: r in rids ==> r in listed && r in s.mem.journal && s.mem.journal[r] == listed[r]
    ensures LedgerTrue(RecoverAll(s, listed, rids, clock))
    decreases |rids|
  {
    hide Inv, RecoverEntry, Settled, TruthfulState, VerdictRight, LedgerTrue, NothingCredited, Credited;
    if rids != [] {
      var r := rids[0];
      var s1 := if Terminal(listed[r].phase) then s else RecoverEntry(s, listed[r], clock[0]).0;
      RecoverNext(s, s1, r, clock[0]);
      if !Terminal(listed[r].phase) {
        RecoverTruthful(s, r, clock[0]);
        RecoverCredits(s, r, clock[0]);
        CreditedTrue(s, s1, r);
      }
      assert forall q :: q in rids[1..] ==> q in rids && q != r;
      RecoverAllTrue(s1, listed, rids[1..], clock[1..]);
    }
  }

  lemma StepTrue(s: State, step: Step)
    requires Inv(s) && Enabled(s, step) && TruthfulState(s) && Disciplined(s, step) && LedgerTrue(s)
    ensures LedgerTrue(Take(s, step).0)
  {
    hide Inv, Import, ImportKl1, RecoverAll, Truthful, Disciplined, RowsTrue, NothingCredited, Credited, SameRequest;
    StepKeeps(s, step);
    StepTruthful(s, step);
    if IsImport(step) {
      StepCredits(s, step);
      CreditedTrue(s, Take(s, step).0, RidOf(RequestOf(step).requestId));
    } else {
      PowerOnKeeps(s, step.script);
      RecoverAllTrue(PowerOn(s, step.script), s.disk.journal, step.rids, step.clock);
    }
  }

  lemma {:induction false} RunTrue(s: State, steps: seq<Step>)
    requires Inv(s) && Feasible(s, steps) && TruthfulState(s) && DisciplinedRun(s, steps) && LedgerTrue(s)
    ensures LedgerTrue(StateAfter(s, steps))
    decreases |steps|
  {
    hide Inv, Take, Enabled, TruthfulState, Disciplined, Progressed, LedgerTrue;
    if steps != [] {
      StepKeeps(s, steps[0]);
      StepTruthful(s, steps[0]);
      StepTrue(s, steps[0]);
      RunTrue(Take(s, steps[0]).0, steps[1..]);
    }
  }

  ghost predicate IsLast(commits: seq<Commit>, rid: Rid) { commits != [] && commits[|commits| - 1].rid == rid }

  /** The ledger's row is the one of the last commit. */
  ghost predicate RowOfLastCommit(s: State, p: Purpose) { p in s.ledger && IsLast(s.commits, s.ledger[p].rid) }

  lemma LastSlots(s: State, p: Purpose)
    requires Inv(s) && p in REQUIRED
    ensures s.commits == [] ==> p !in s.mem.active
    ensures s.commits != [] ==>
      p in s.mem.active && Unseals(p, s.mem.active[p]) && p in s.commits[|s.commits| - 1].slots
      && s.mem.active[p] == s.commits[|s.commits| - 1].slots[p]
  {
    hide Lags, StagingGood, JournalGood, MarkerOf, Unseals;
    if s.commits != [] { assert GoodSlots(s.commits[|s.commits| - 1].slots, |s.commits|); }
  }

  /** A true row has the version of the last commit's slot exactly when it is that commit's. */
  lemma RowOfLast(commits: seq<Commit>, row: LedgerRow, p: Purpose)
    requires CommitsGood(commits) && RowTrue(row, p, commits)
    ensures commits != [] && p in commits[|commits| - 1].slots
    ensures row.version == commits[|commits| - 1].slots[p].version <==> IsLast(commits, row.rid)
    ensures IsLast(commits, row.rid) ==> row.generation == |commits|
  {
    var n := |commits| - 1;
    hide Unseals;
    assert GoodSlots(commits[n].slots, n + 1);
    if row.generation - 1 < n { assert Rises(commits[row.generation - 1].slots, commits[n].slots); }
  }

  lemma LastRow(commits: seq<Commit>, row: LedgerRow, p: Purpose)
    requires CommitsGood(commits) && RowTrue(row, p, commits) && IsLast(commits, row.rid)
    ensures p in commits[|commits| - 1].slots
    ensures var slot := commits[|commits| - 1].slots[p];
            row.version == slot.version && row.keyIdDigest == slot.keyIdDigest && row.algorithm == slot.algorithm
  {
    hide Unseals, Rises;
    assert row.generation == |commits|;
  }

  /** What a status query answers while the rows are true: whether there is a key at all, and
      whether the row is the one of the last commit. */
  lemma StatusExactly(s: State, p: Purpose)
    requires Inv(s) && RowsTrue(s.ledger, s.commits) && p in REQUIRED
    ensures StatusOf(s, p) == Missing <==> s.commits == []
    ensures StatusOf(s, p) == ActiveKey <==> RowOfLastCommit(s, p)
  {
    hide Inv, CommitsGood, Lags, StagingGood, JournalGood, ActiveGood, IsLast, RowTrue;
    LastSlots(s, p);
    InvParts(s);
    if p in s.ledger {
      assert RowTrue(s.ledger[p], p, s.commits);
      RowOfLast(s.commits, s.ledger[p], p);
      if IsLast(s.commits, s.ledger[p].rid) { LastRow(s.commits, s.ledger[p], p); }
    }
  }

  lemma InitialTrue()
    ensures TruthfulState(INITIAL) && LedgerTrue(INITIAL)
  {
  }

  /** Over every crashing run in which no request commits while another is open: a status query
      answers MISSING exactly before the first commit and ACTIVE exactly when the row is that of
      the last commit. */
  lemma StatusTellsTheTruth(steps: seq<Step>, p: Purpose)
    requires Feasible(INITIAL, steps) && DisciplinedRun(INITIAL, steps) && p in REQUIRED
    ensures var s := StateAfter(INITIAL, steps);
            && (StatusOf(s, p) == Missing <==> s.commits == [])
            && (StatusOf(s, p) == ActiveKey <==> RowOfLastCommit(s, p))
  {
    hide Inv, Feasible, StateAfter, DisciplinedRun, StatusOf, RowsTrue;
    InitialGood();
    InitialTrue();
    RunTruthful(INITIAL, steps);
    RunTrue(INITIAL, steps);
    StatusExactly(StateAfter(INITIAL, steps), p);
  }

  // ---- runs without a restart ----

  ghost predicate NoRestart(steps: seq<Step>) { forall i :: 0 <= i < |steps| ==> IsImport(steps[i]) }

  ghost predicate Closed(m: Image, r: Rid) { r in m.journal && m.journal[r].phase == Succeeded }

  /** Rows are those of closed requests, and of the last commit once its request is closed. */
  ghost predicate RowsCurrent(s: State) {
    && (forall p :: p in s.ledger ==> Closed(s.mem, s.ledger[p].rid))
    && (s.commits != [] && Closed(s.mem, s.commits[|s.commits| - 1].rid) ==>
          forall p :: p in REQUIRED ==> RowOfLastCommit(s, p))
  }

  lemma CurrentWithoutCredit(s: State, t: State, rid: Rid)
    requires RowsCurrent(s) && NothingCredited(s, t)
    requires forall r :: Closed(s.mem, r) ==> Closed(t.mem, r)
    requires t.commits == s.commits || (t.commits != [] && t.commits[|t.commits| - 1].rid == rid)
    requires t.commits != s.commits ==> rid !in s.mem.journal
    ensures RowsCurrent(t)
  {
  }

  lemma RowsOfAll(e: Entry, slots: map<Purpose, Slot>)
    requires ItemsMatch(e.items, slots)
    ensures forall p :: p in slots.Keys ==> HasPurpose(e.items, p)
  {
    hide HasPurpose;
  }

  lemma RowNames(row: LedgerRow, p: Purpose, e: Entry)
    requires FromEntry(row, p, e)
    ensures row.rid == e.rid
  {
  }

  /** In a truthful state an entry that recovery credits is the last committed one. */
  lemma OnlyLastIsCredited(s: State, t: State, r: Rid)
    requires Inv(t) && TruthfulState(t) && Credited(s, t, r)
    ensures IsLast(t.commits, r) && forall p :: p in REQUIRED ==> RowOfLastCommit(t, p)
  {
    hide Inv, Truthful, CommittedBy, RowsKept, SavedRowsKept, HasPurpose, FromEntry, ItemsMatch;
    CreditIsTruthful(s, t, r);
    OwnCommit(t, r);
    OwnItems(t, |t.commits| - 1);
    RowsOfAll(t.mem.journal[r], t.commits[|t.commits| - 1].slots);
    forall p | p in REQUIRED ensures RowOfLastCommit(t, p) {
      assert HasRow(t.ledger, p, t.mem.journal[r]);
      RowNames(t.ledger[p], p, t.mem.journal[r]);
    }
  }

  lemma RowsAreClosed(s: State, t: State, rid: Rid)
    requires RowsCurrent(s) && Credited(s, t, rid) && t.mem.journal[rid].rid == rid
    requires forall r :: Closed(s.mem, r) ==> Closed(t.mem, r)
    ensures forall p :: p in t.ledger ==> Closed(t.mem, t.ledger[p].rid)
  {
    hide FromEntry, SavedRowsKept, HasPurpose;
    forall p | p in t.ledger ensures Closed(t.mem, t.ledger[p].rid) {
      if FromEntry(t.ledger[p], p, t.mem.journal[rid]) { RowNames(t.ledger[p], p, t.mem.journal[rid]); }
    }
  }

  lemma CurrentWithCredit(s: State, t: State, rid: Rid)
    requires RowsCurrent(s) && Credited(s, t, rid) && Inv(t) && TruthfulState(t)
    requires forall r :: Closed(s.mem, r) ==> Closed(t.mem, r)
    ensures RowsCurrent(t)
  {
    hide Inv, TruthfulState, Credited, RowOfLastCommit, IsLast;
    OnlyLastIsCredited(s, t, rid);
    CreditedName(s, t, rid);
    RowsAreClosed(s, t, rid);
  }

  lemma CreditedName(s: State, t: State, rid: Rid)
    requires Inv(t) && Credited(s, t, rid)
    ensures rid in t.mem.journal && t.mem.journal[rid].rid == rid
  {
  }

  lemma ClosedStays(s: State, t: State)
    requires Progressed(s, t)
    ensures forall r :: Closed(s.mem, r) ==> Closed(t.mem, r)
  {
  }

  lemma LastCommitIsOwn(s: State, step: Step)
    requires Inv(s) && Enabled(s, step) && IsImport(step)
    ensures var t := Take(s, step).0;
            t.commits == s.commits
            || (t.commits != [] && t.commits[|t.commits| - 1].rid == RidOf(RequestOf(step).requestId))
  {
    hide Inv, Import, ImportKl1, Progressed, BatchOf;
    ScriptIrrelevant(s, step.script);
    match step {
      case DoImport(req, env, script) => ImportEffect(s.(script := script), req, env);
      case DoImportKl1(req, ctx, env, script) => ImportKl1Effect(s.(script := script), req, ctx, env);
    }
  }

  lemma StepCurrent(s: State, step: Step)
    requires Inv(s) && Enabled(s, step) && TruthfulState(s) && Disciplined(s, step) && RowsCurrent(s)
    requires IsImport(step)
    ensures RowsCurrent(Take(s, step).0)
  {
    hide Inv, Take, Truthful, Disciplined, RowsCurrent, NothingCredited, Credited, Closed;
    var t := Take(s, step).0;
    var rid := RidOf(RequestOf(step).requestId);
    StepKeeps(s, step);
    StepTruthful(s, step);
    StepCredits(s, step);
    LastCommitIsOwn(s, step);
    ClosedStays(s, t);
    if NothingCredited(s, t) { CurrentWithoutCredit(s, t, rid); } else { CurrentWithCredit(s, t, rid); }
  }

  lemma {:induction false} RunCurrent(s: State, steps: seq<Step>)
    requires Inv(s) && Feasible(s, steps) && TruthfulState(s) && DisciplinedRun(s, steps) && RowsCurrent(s)
    requires NoRestart(steps)
    ensures RowsCurrent(StateAfter(s, steps))
    decreases |steps|
  {
    hide Inv, Take, Enabled, TruthfulState, Disciplined, Progressed, RowsCurrent;
    if steps != [] {
      StepKeeps(s, steps[0]);
      StepTruthful(s, steps[0]);
      StepCurrent(s, steps[0]);
      RunCurrent(Take(s, steps[0]).0, steps[1..]);
    }
  }

  /** Without a restart in such a run, both status queries answer ACTIVE exactly when the request
      that committed last is closed as SUCCEEDED, and INVALID exactly while it is open. */
  lemma StatusFollowsTheJournal(steps: seq<Step>, p: Purpose)
    requires Feasible(INITIAL, steps) && DisciplinedRun(INITIAL, steps) && NoRestart(steps) && p in REQUIRED
    ensures var s := StateAfter(INITIAL, steps);
            && (StatusOf(s, p) == ActiveKey <==> s.commits != [] && Closed(s.mem, s.commits[|s.commits| - 1].rid))
            && (StatusOf(s, p) == InvalidKey <==> s.commits != [] && !Closed(s.mem, s.commits[|s.commits| - 1].rid))
  {
    hide Inv, Feasible, StateAfter, DisciplinedRun, Closed, RowsTrue;
    InitialGood();
    StatusTellsTheTruth(steps, p);
    RunCurrent(INITIAL, steps);
  }
}
