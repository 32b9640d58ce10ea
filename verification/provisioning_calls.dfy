/** What a whole service call does: the pipeline touches one request's entry and either
    leaves the active slots alone or replaces both by that request's items; recovery closes
    the entry it is given. */
module ProvisioningCalls {
  import opened Wrappers
  import opened ProviderState
  import opened Provisioning
  import opened ProvisioningInvariants

  // ---- structurally valid requests ----

  /** Exactly one item per required purpose, with distinct key ids, usable versions and
      validity intervals, and a check value each. */
  ghost predicate WellFormed(req: Request) {
    && 1 <= |req.requestId| <= 128 && req.domain == DOMAIN
    && |req.items| == 2
    && PurposesOf(req.items) == REQUIRED
    && req.items[0].purpose != req.items[1].purpose && req.items[0].keyId != req.items[1].keyId
    && (forall it :: it in req.items ==>
          && it.keyId != "" && it.algorithm == ALGORITHM && it.suite == SUITE && it.formatV1
          && 1 <= it.version <= MAX_VERSION && 0 < it.validFrom < it.validTo
          && 1 <= it.wrappedSize <= MAX_WRAPPED && 1 <= it.parametersSize <= MAX_PARAMETERS
          && it.digestSize == 32 && it.kcvPresent)
  }

  /** The structure check accepts a request exactly when it is well formed. */
  lemma StructureAccepts(req: Request)
    ensures ValidateStructure(req) == Success <==> WellFormed(req)
  {
    if |req.items| == 2 {
      var a, b := req.items[0], req.items[1];
      assert req.items == [a, b] && req.items[..0] == [] && req.items[..1] == [a];
      assert PurposesOf([a]) == {a.purpose} && KeyIdsOf([a]) == {a.keyId};
      assert PurposesOf([a, b]) == {a.purpose, b.purpose};
      assert ItemsCode(req.items, 2) == Success;
      assert ItemsCode(req.items, 1) == ItemCode(b, {a.purpose}, {a.keyId});
      assert forall it :: it in req.items <==> it == a || it == b;
      if ValidateStructure(req) == Success || WellFormed(req) {
        assert UplinkAead in REQUIRED && DownlinkAead in REQUIRED;
        assert a.purpose in PurposesOf(req.items) && b.purpose in PurposesOf(req.items);
      }
    }
  }

  lemma VersionsRise(m: Image, items: seq<Item>, now: int, i: nat)
    requires i <= |items| && VersionAndTimeFrom(m, items, now, i) == Success
    ensures forall j :: i <= j < |items| && items[j].purpose in m.active ==>
              m.active[items[j].purpose].version < items[j].version
    decreases |items| - i
  {
    if i < |items| { VersionsRise(m, items, now, i + 1); }
  }

  // ---- inside the pipeline ----

  /** The disk holds a memory image of this pipeline: the start's journal plus entry `e`. */
  ghost predicate Tracks(s0: State, disk: Image, e: Entry) {
    e.rid in disk.journal && SameRequest(disk.journal[e.rid], e)
    && disk.journal == s0.mem.journal[e.rid := disk.journal[e.rid]]
  }

  ghost predicate Outside(s0: State, s: State, e: Entry) {
    && Tracks(s0, s.mem, e)
    && (s.disk == s0.disk || Tracks(s0, s.disk, e))
    && (s.alive ==> s0.alive)
  }

  /** Nothing committed so far. */
  ghost predicate Uncommitted(s0: State, s: State, e: Entry) {
    && Outside(s0, s, e) && s.commits == s0.commits
    && (e.rid in s.disk.journal ==> s.disk.journal[e.rid].phase != Succeeded)
  }

  ghost predicate Before(s0: State, s: State, e: Entry) { Inv(s) && Uncommitted(s0, s, e) }

  /** The request's batch is committed and on the disk, together with an entry that says at least
      that it was about to be. */
  ghost predicate CommittedBatch(s0: State, s: State, e: Entry, slots: map<Purpose, Slot>) {
    && Outside(s0, s, e) && s.commits == s0.commits + [Commit(e.rid, e.generation, slots)]
    && Tracks(s0, s.disk, e) && s.disk.journal[e.rid].phase in {Committing, Succeeded, OutcomeUnknown}
  }

  ghost predicate After(s0: State, s: State, e: Entry, slots: map<Purpose, Slot>) {
    Inv(s) && CommittedBatch(s0, s, e, slots)
  }

  ghost predicate StagedUpTo(m: Image, req: Request, env: Env, generation: nat, n: nat)
    requires Shaped(req, env) && n <= |req.items|
  {
    forall j :: 0 <= j < n ==>
      && env.unwraps[j].Opened? && env.unwraps[j].kcv == req.items[j].kcv
      && req.items[j].purpose in m.staging
      && m.staging[req.items[j].purpose] == StagedSlot(req.items[j], generation, env.unwraps[j].key)
  }

  /** The slot has the item's metadata, and holds the key sealed for exactly this purpose,
      version and generation. */
  ghost predicate HoldsItem(slot: Slot, item: Item, generation: nat, key: seq<byte>) {
    && slot.version == item.version && slot.keyIdDigest.of == item.keyId && slot.algorithm == item.algorithm
    && slot.validFrom == item.validFrom && slot.validTo == item.validTo && slot.generation == generation
    && slot.sealed.purpose == item.purpose && slot.sealed.version == item.version
    && slot.sealed.generation == generation && slot.sealed.key == key
  }

  /** Both slots come from this request's items, under this generation. */
  ghost predicate BatchOf(slots: map<Purpose, Slot>, req: Request, env: Env, generation: nat)
    requires Shaped(req, env)
  {
    slots.Keys == REQUIRED &&
    forall j :: 0 <= j < |req.items| ==>
      && env.unwraps[j].Opened? && env.unwraps[j].kcv == req.items[j].kcv
      && req.items[j].purpose in slots
      && HoldsItem(slots[req.items[j].purpose], req.items[j], generation, env.unwraps[j].key)
  }

  /** The pipeline ended without a commit of its own. */
  ghost predicate Lost(s0: State, s: State, e: Entry, o: Outcome) {
    && Before(s0, s, e) && o.code != Success
    && (s.mem.journal[e.rid].phase == Failed || s.mem.journal[e.rid].phase == OutcomeUnknown)
  }

  /** The pipeline committed; it reports success unless a proof is missing. */
  ghost predicate Won(s0: State, s: State, e: Entry, o: Outcome, slots: map<Purpose, Slot>) {
    && After(s0, s, e, slots)
    && (s.mem.journal[e.rid].phase == Succeeded || s.mem.journal[e.rid].phase == OutcomeUnknown)
    && (o.code == Success <==> s.mem.journal[e.rid].phase == Succeeded)
    && (o.code == Success ==> o == CommittedResult(s.mem.journal[e.rid]))
    && o.state != ImportFailed
  }

  lemma RecordOutside(s0: State, s: State, t: State, e: Entry, e1: Entry)
    requires Uncommitted(s0, s, e) && SameRequest(e1, e) && e1.phase != Succeeded
    requires Wrote(s, t, s.mem.(journal := s.mem.journal[e.rid := e1]))
    ensures Uncommitted(s0, t, e)
  {
    assert s.mem.journal[e.rid := e1] == s0.mem.journal[e.rid := e1];
  }

  lemma RecordBefore(s0: State, s: State, e: Entry, e1: Entry)
    requires Before(s0, s, e) && SameRequest(e1, e) && e.generation == s.mem.generation + 1
    requires !Terminal(s.mem.journal[e.rid].phase)
    requires e1.phase != Succeeded && (e1.phase == Failed ==> s.mem.stagingGeneration != e.generation)
    ensures var t := SaveJournal(s, e1).0;
            Before(s0, t, e) && t.mem == s.mem.(journal := s.mem.journal[e.rid := e1])
  {
    assert MayRecord(s, e1);
    SaveJournalKeeps(s, e1);
    RecordOutside(s0, s, SaveJournal(s, e1).0, e, e1);
  }

  lemma SuspendLoses(s0: State, s: State, e: Entry, e1: Entry, note: Note)
    requires Before(s0, s, e) && SameRequest(e1, e) && e.generation == s.mem.generation + 1
    requires !Terminal(s.mem.journal[e.rid].phase)
    ensures var (t, o) := Suspend(s, e1, note); Lost(s0, t, e, o)
  {
    RecordBefore(s0, s, e, e1.(phase := OutcomeUnknown, lastError := note));
  }

  lemma AbandonLoses(s0: State, s: State, e: Entry, e1: Entry, rc: Code)
    requires Before(s0, s, e) && SameRequest(e1, e) && e.generation == s.mem.generation + 1
    requires !Terminal(s.mem.journal[e.rid].phase) && rc != Success
    ensures var (t, o) := Abandon(s, e1, rc); Lost(s0, t, e, o)
  {
    RollbackKeeps(s, e.generation);
    var t := RollbackStaging(s, e.generation).0;
    assert Before(s0, t, e);
    RecordBefore(s0, t, e, e1.(phase := Failed, lastError := FromCode(rc)));
  }

  lemma EndLoses(s0: State, s: State, e: Entry, e1: Entry, rc: Code)
    requires Before(s0, s, e) && SameRequest(e1, e) && e.generation == s.mem.generation + 1
    requires !Terminal(s.mem.journal[e.rid].phase) && rc != Success
    ensures var (t, o) := EndOn(s, e1, rc); Lost(s0, t, e, o)
  {
    if IsOutcomeUnknown(rc) { SuspendLoses(s0, s, e, e1, FromCode(rc)); } else { AbandonLoses(s0, s, e, e1, rc); }
  }

  lemma RequiredItem(req: Request, i: nat)
    requires WellFormed(req) && i < 2
    ensures req.items[i].purpose in REQUIRED && req.items[i].kcvPresent
  {
    assert req.items[i] in req.items && req.items[i].purpose in PurposesOf(req.items);
  }

  lemma StagedOneMore(m: Image, req: Request, env: Env, generation: nat, i: nat)
    requires Shaped(req, env) && WellFormed(req) && i < 2
    requires StagedUpTo(m, req, env, generation, i)
    requires UnwrapCode(req.items[i], env.unwraps[i]) == Success
    ensures StagedUpTo(WithStaged(m, req.items[i], generation, env.unwraps[i].key), req, env, generation, i + 1)
  {
    RequiredItem(req, i);
  }

  lemma StageOutside(s0: State, s: State, t: State, e: Entry, m: Image)
    requires Uncommitted(s0, s, e) && Wrote(s, t, m) && m.journal == s.mem.journal
    requires s.mem.journal[e.rid].phase != Succeeded
    ensures Uncommitted(s0, t, e)
  {
  }

  /** Items before `i` are staged under this generation; `e1` is the entry as journalled. */
  ghost predicate Staging(s0: State, s: State, e: Entry, e1: Entry, req: Request, env: Env, i: nat)
    requires Shaped(req, env) && i <= |req.items|
  {
    && Before(s0, s, e) && SameRequest(e1, e) && e.generation == s.mem.generation + 1
    && s.mem.journal[e.rid] == e1 && !Terminal(e1.phase)
    && StagedUpTo(s.mem, req, env, e.generation, i)
  }

  lemma StageOne(s0: State, s: State, e: Entry, e1: Entry, req: Request, env: Env, i: nat)
    requires Shaped(req, env) && WellFormed(req) && i < 2
    requires Staging(s0, s, e, e1, req, env, i)
    ensures var (t, rc) := UnwrapToStaging(s, req.items[i], e.generation, env.unwraps[i]);
            Staging(s0, t, e, e1, req, env, if rc == Success then i + 1 else i)
  {
    var item, u := req.items[i], env.unwraps[i];
    if UnwrapCode(item, u) == Success {
      assert e1.generation == e.generation;
      assert OpenAt(s.mem, e.generation);
      RequiredItem(req, i);
      StageKeeps(s, item, e.generation, u);
      StagedOneMore(s.mem, req, env, e.generation, i);
      StageOutside(s0, s, UnwrapToStaging(s, item, e.generation, u).0, e, WithStaged(s.mem, item, e.generation, u.key));
    }
  }

  lemma StageStep(s0: State, s: State, e: Entry, e1: Entry, e2: Entry, req: Request, env: Env, i: nat)
    requires Shaped(req, env) && i <= |req.items|
    requires Staging(s0, s, e, e1, req, env, i)
    requires SameRequest(e2, e) && !Terminal(e2.phase)
    ensures Staging(s0, SaveJournal(s, e2).0, e, e2, req, env, i)
  {
    RecordBefore(s0, s, e, e2);
  }

  /** Unwrapping all items either ends the pipeline or leaves exactly this request's two
      items in staging, whatever was staged before. */
  lemma StageFromKeeps(s0: State, s: State, e: Entry, e1: Entry, req: Request, env: Env, i: nat)
    requires Shaped(req, env) && WellFormed(req) && i <= 2
    requires Staging(s0, s, e, e1, req, env, i)
    ensures match StageFrom(s, e1, req, env, i)
            case Ended(t, o) => Lost(s0, t, e, o)
            case Going(t, e2) => Staging(s0, t, e, e2, req, env, 2)
    decreases 2 - i
  {
    hide Inv, Uncommitted, StagedUpTo;
    if i < 2 {
      assert e1.generation == e.generation;
      var (s1, rc) := UnwrapToStaging(s, req.items[i], e1.generation, env.unwraps[i]);
      StageOne(s0, s, e, e1, req, env, i);
      if rc != Success {
        EndLoses(s0, s1, e, e1, rc);
      } else {
        var e2 := if req.items[i].purpose == UplinkAead then e1.(phase := UplinkStaged) else e1;
        StageStep(s0, s1, e, e1, e2, req, env, i + 1);
        StageFromKeeps(s0, SaveJournal(s1, e2).0, e, e2, req, env, i + 1);
      }
    }
  }

  // ---- start, verify, commit, finish ----

  /** What admission has established when a pipeline starts. */
  ghost predicate Admitted(s: State, req: Request) {
    && Inv(s) && WellFormed(req) && RidOf(req.requestId) !in s.mem.journal
    && (forall j :: 0 <= j < |req.items| && req.items[j].purpose in s.mem.active ==>
          s.mem.active[req.items[j].purpose].version < req.items[j].version)
  }

  lemma NotYetCommitted(s: State, rid: Rid)
    requires Inv(s) && rid !in s.mem.journal
    ensures !CommittedBy(s.commits, rid) && rid !in s.disk.journal
  {
  }

  lemma StartKeeps(s: State, req: Request, env: Env, now: int)
    requires Shaped(req, env) && Admitted(s, req)
    ensures var e := NewEntry(req, s.mem.generation + 1, now);
            Staging(s, SaveJournal(s, e).0, e, e, req, env, 0)
  {
    hide Inv, WellFormed, SaveState, MayRecord, Uncommitted;
    var e := NewEntry(req, s.mem.generation + 1, now);
    MayStart(s, e);
    SaveJournalKeeps(s, e);
    StartOutside(s, SaveJournal(s, e).0, e);
  }

  lemma MayStart(s: State, e: Entry)
    requires Inv(s) && e.rid !in s.mem.journal && e.generation == s.mem.generation + 1 && !Terminal(e.phase)
    ensures MayRecord(s, e) && e.rid !in s.disk.journal
  {
    NotYetCommitted(s, e.rid);
  }

  lemma StartOutside(s: State, t: State, e: Entry)
    requires Wrote(s, t, s.mem.(journal := s.mem.journal[e.rid := e])) && e.rid !in s.disk.journal
    requires e.phase != Succeeded
    ensures Uncommitted(s, t, e)
  {
  }

  /** Two staged items of a well-formed request are a whole batch. */
  lemma StagedIsBatch(m: Image, req: Request, env: Env, generation: nat, now: int)
    requires Shaped(req, env) && WellFormed(req) && StagedUpTo(m, req, env, generation, 2)
    requires m.staging.Keys <= REQUIRED
    requires forall j :: 0 <= j < |req.items| && req.items[j].purpose in m.active ==>
               m.active[req.items[j].purpose].version < req.items[j].version
    requires m.active.Keys <= REQUIRED
    ensures BatchOf(m.staging, req, env, generation) && BothStagedAt(m, generation)
    ensures ItemsMatch(NewEntry(req, generation, now).items, m.staging) && Rises(m.active, m.staging)
  {
    RequiredItem(req, 0);
    RequiredItem(req, 1);
    var a, b := req.items[0], req.items[1];
    assert a.purpose in m.staging && b.purpose in m.staging;
    assert REQUIRED == {a.purpose, b.purpose};
    assert m.staging.Keys == REQUIRED;
    var items := NewEntry(req, generation, now).items;
    assert items[0] == NewStatus(a, req.envelopeDigests[0]) && items[1] == NewStatus(b, req.envelopeDigests[1]);
  }

  lemma ActiveKeys(s: State)
    requires Inv(s)
    ensures s.mem.active.Keys <= REQUIRED && s.mem.staging.Keys <= REQUIRED && s.mem.generation == |s.commits|
  {
    if s.commits != [] { assert GoodSlots(ActiveAfter(s.commits), |s.commits|); }
  }

  lemma SameActive(s0: State, s: State)
    requires Inv(s0) && Inv(s) && s.commits == s0.commits
    ensures s.mem.active == s0.mem.active && s.mem.generation == s0.mem.generation
  {
  }

  lemma StagedBatch(s0: State, s: State, e: Entry, e1: Entry, req: Request, env: Env, now: int)
    requires Shaped(req, env) && Admitted(s0, req)
    requires e == NewEntry(req, s0.mem.generation + 1, now) && e1.items == e.items
    requires Staging(s0, s, e, e1, req, env, 2)
    ensures MayCommit(s, e.rid) && BatchOf(s.mem.staging, req, env, e.generation)
  {
    NotYetCommitted(s0, e.rid);
    SameActive(s0, s);
    ActiveKeys(s);
    hide Inv;
    StagedIsBatch(s.mem, req, env, e.generation, now);
  }

  lemma CommittedAfter(s0: State, s: State, t: State, e: Entry, e1: Entry, req: Request, env: Env)
    requires Shaped(req, env) && |req.items| == 2 && Staging(s0, s, e, e1, req, env, 2) && e1.phase == Committing
    requires Inv(t) && (t.alive ==> s.alive) && t.mem == AfterCommit(s.mem) && t.disk == t.mem
    requires t.commits == s.commits + [Commit(e.rid, s.mem.generation + 1, s.mem.staging)]
    ensures After(s0, t, e, s.mem.staging)
  {
  }

  lemma UncommittedBefore(s0: State, s: State, t: State, e: Entry)
    requires Before(s0, s, e) && Inv(t) && (t.alive ==> s.alive) && t.mem == WithoutStaging(s.mem)
    requires t.disk == s.disk && t.commits == s.commits
    ensures Before(s0, t, e) && t.mem.journal == s.mem.journal
  {
  }

  lemma RecordAfter(s0: State, s: State, e: Entry, e1: Entry, slots: map<Purpose, Slot>)
    requires After(s0, s, e, slots) && SameRequest(e1, e) && e.generation == s.mem.generation
    requires !Terminal(s.mem.journal[e.rid].phase) && e1.phase in {Succeeded, OutcomeUnknown}
    requires s.mem.stagingGeneration == 0
    ensures var t := SaveJournal(s, e1).0;
            After(s0, t, e, slots) && t.mem == s.mem.(journal := s.mem.journal[e.rid := e1])
  {
    assert MayRecord(s, e1);
    SaveJournalKeeps(s, e1);
    RecordCommitted(s0, s, SaveJournal(s, e1).0, e, e1, slots);
  }

  lemma RecordCommitted(s0: State, s: State, t: State, e: Entry, e1: Entry, slots: map<Purpose, Slot>)
    requires CommittedBatch(s0, s, e, slots) && SameRequest(e1, e) && e1.phase in {Succeeded, OutcomeUnknown}
    requires Wrote(s, t, s.mem.(journal := s.mem.journal[e.rid := e1]))
    ensures CommittedBatch(s0, t, e, slots)
  {
    assert s.mem.journal[e.rid := e1] == s0.mem.journal[e.rid := e1];
  }

  lemma LedgerAfter(s0: State, s: State, e: Entry, e1: Entry, slots: map<Purpose, Slot>)
    requires After(s0, s, e, slots)
    ensures var t := UpdateLedger(s, e1, e1.generation, 0);
            After(s0, t, e, slots) && t.mem == s.mem
  {
    LedgerKeeps(s, e1, e1.generation, 0);
  }

  /** The entry a pipeline closes with, once its batch is active. */
  function Finished(m: Image, e: Entry, env: Env, now: int): Entry
    requires |e.items| == |env.proofs| == |env.unwraps|
  {
    e.(phase := Succeeded, committedAt := if env.commit.trusted then env.commit.utc else now,
       items := seq(|e.items|, i requires 0 <= i < |e.items| => FinishStatus(m, e.items[i], env, i)))
  }

  /** The finished entry still acknowledges what was asked for: each computed check value
      is the one the item named. */
  lemma FinishedSameRequest(m: Image, e: Entry, e1: Entry, req: Request, env: Env, now: int, slots: map<Purpose, Slot>)
    requires Shaped(req, env) && WellFormed(req) && BatchOf(slots, req, env, e.generation)
    requires e == NewEntry(req, e.generation, now) && e1 == e.(phase := e1.phase)
    ensures SameRequest(Finished(m, e1, env, now), e)
  {
    var items := Finished(m, e1, env, now).items;
    forall i | 0 <= i < |items| ensures Acks(items)[i] == Acks(e.items)[i] {
      assert env.unwraps[i].kcv == req.items[i].kcv;
    }
    assert Acks(items) == Acks(e.items);
  }

  lemma FinishWins(s0: State, s: State, e: Entry, e1: Entry, env: Env, now: int, slots: map<Purpose, Slot>)
    requires |e1.items| == |env.proofs| == |env.unwraps| && SameRequest(Finished(s.mem, e1, env, now), e)
    requires After(s0, s, e, slots) && e.generation == s.mem.generation && s.mem.stagingGeneration == 0
    requires !Terminal(s.mem.journal[e.rid].phase)
    ensures var (t, o) := Finish(s, e1, env, now);
            Won(s0, t, e, o, slots) && t.mem.active == s.mem.active
  {
    hide Inv, CommittedBatch, FinishStatus, SaveState, GenerateProof, SameRequest, ProofsMade;
    var e2 := Finished(s.mem, e1, env, now);
    if ProofsMade(s.mem, e1, env) {
      RecordAfter(s0, s, e, e2, slots);
      LedgerAfter(s0, SaveJournal(s, e2).0, e, e2, slots);
    } else {
      var e3 := e2.(phase := OutcomeUnknown, lastError := AttestationFailed);
      SameRequestAnyPhase(e2, e3, e);
      RecordAfter(s0, s, e, e3, slots);
    }
  }

  lemma SameRequestAnyPhase(a: Entry, b: Entry, e: Entry)
    requires SameRequest(a, e) && b == a.(phase := b.phase, lastError := b.lastError)
    ensures SameRequest(b, e)
  {
  }

  lemma CommitWins(s0: State, s: State, e: Entry, e1: Entry, req: Request, env: Env, now: int)
    requires Shaped(req, env) && WellFormed(req)
    requires e == NewEntry(req, s0.mem.generation + 1, now) && e1 == e.(phase := e1.phase)
    requires Staging(s0, s, e, e1, req, env, 2) && e1.phase == Committing
    requires MayCommit(s, e.rid) && BatchOf(s.mem.staging, req, env, e.generation)
    requires CommitBatch(s, e.generation, e.rid).1 == Success
    ensures var (t, o) := Finish(CommitBatch(s, e.generation, e.rid).0, e1, env, now);
            Won(s0, t, e, o, t.mem.active) && BatchOf(t.mem.active, req, env, e.generation)
  {
    hide Inv, Uncommitted, StagedUpTo, BatchOf, CommittedBatch, SaveState, MayCommit, Finished, CommitBatch, Finish;
    CommitKeeps(s, e.rid);
    var t := CommitBatch(s, e.generation, e.rid).0;
    CommittedAfter(s0, s, t, e, e1, req, env);
    FinishedSameRequest(t.mem, e, e1, req, env, now, s.mem.staging);
    FinishWins(s0, t, e, e1, env, now, s.mem.staging);
  }

  lemma CommitLoses(s0: State, s: State, e: Entry, e1: Entry, req: Request, env: Env)
    requires Shaped(req, env) && |req.items| == 2 && Staging(s0, s, e, e1, req, env, 2)
    requires MayCommit(s, e.rid) && CommitBatch(s, e.generation, e.rid).1 != Success
    ensures var (t, rc) := CommitBatch(s, e.generation, e.rid);
            var (u, o) := EndOn(t, e1, rc);
            Lost(s0, u, e, o)
  {
    hide Inv, Uncommitted, StagedUpTo, MayCommit, CommitBatch, EndOn, Lost, SameRequest;
    CommitKeeps(s, e.rid);
    var (t, rc) := CommitBatch(s, e.generation, e.rid);
    UncommittedBefore(s0, s, t, e);
    EndLoses(s0, t, e, e1, rc);
  }

  lemma CommittingKeeps(s0: State, s: State, e: Entry, e1: Entry, req: Request, env: Env, now: int)
    requires Shaped(req, env) && Admitted(s0, req) && WellFormed(req)
    requires e == NewEntry(req, s0.mem.generation + 1, now) && e1 == e.(phase := e1.phase)
    requires Staging(s0, s, e, e1, req, env, 2)
    ensures var e2 := e1.(phase := Committing);
            var s1 := SaveJournal(s, e2).0;
            && Staging(s0, s1, e, e2, req, env, 2)
            && MayCommit(s1, e.rid) && BatchOf(s1.mem.staging, req, env, e.generation)
  {
    hide Inv, Uncommitted, StagedUpTo, BatchOf, MayCommit, Admitted, SaveJournal, SameRequest;
    var e2 := e1.(phase := Committing);
    StagedSameRequest(s0, s, e, e1, e2, req, env);
    StageStep(s0, s, e, e1, e2, req, env, 2);
    StagedBatch(s0, SaveJournal(s, e2).0, e, e2, req, env, now);
  }

  lemma StagedSameRequest(s0: State, s: State, e: Entry, e1: Entry, e2: Entry, req: Request, env: Env)
    requires Shaped(req, env) && |req.items| == 2 && Staging(s0, s, e, e1, req, env, 2)
    requires e2 == e1.(phase := e2.phase)
    ensures SameRequest(e2, e)
  {
    SameRequestAnyPhase(e1, e2, e);
  }

  lemma CommitPhaseKeeps(s0: State, s: State, e: Entry, e1: Entry, req: Request, env: Env, now: int)
    requires Shaped(req, env) && Admitted(s0, req) && WellFormed(req)
    requires e == NewEntry(req, s0.mem.generation + 1, now) && e1 == e.(phase := e1.phase)
    requires Staging(s0, s, e, e1, req, env, 2)
    ensures var (t, o) := CommitPhase(s, e1, env, now);
            Lost(s0, t, e, o)
            || (Won(s0, t, e, o, t.mem.active) && BatchOf(t.mem.active, req, env, e.generation))
  {
    hide Staging, BatchOf, MayCommit, Admitted, Won, Lost, Finish, SaveJournal, EndOn, CommitBatch;
    var e2 := e1.(phase := Committing);
    var s1 := SaveJournal(s, e2).0;
    CommittingKeeps(s0, s, e, e1, req, env, now);
    if CommitBatch(s1, e.generation, e.rid).1 == Success {
      CommitWins(s0, s1, e, e2, req, env, now);
    } else {
      CommitLoses(s0, s1, e, e2, req, env);
    }
  }

  /** A whole pipeline run: it ends without a commit of its own, or both active slots are
      this request's items under the next generation. */
  lemma PipelineKeeps(s: State, req: Request, env: Env, now: int)
    requires Shaped(req, env) && Admitted(s, req) && WellFormed(req)
    ensures var e := NewEntry(req, s.mem.generation + 1, now);
            var (t, o) := RunPipeline(s, req, env, s.mem.generation + 1, now);
            Lost(s, t, e, o)
            || (Won(s, t, e, o, t.mem.active) && BatchOf(t.mem.active, req, env, e.generation))
  {
    hide Inv, Uncommitted, StagedUpTo, BatchOf, CommittedBatch, SaveState, MayCommit, Admitted, Finished;
    var e := NewEntry(req, s.mem.generation + 1, now);
    var s1 := SaveJournal(s, e).0;
    StartKeeps(s, req, env, now);
    StageFromKeeps(s, s1, e, e, req, env, 0);
    match StageFrom(s1, e, req, env, 0)
    case Ended(_, _) =>
    case Going(s2, e2) =>
      var e3 := e2.(phase := BothStaged);
      var s3 := SaveJournal(s2, e3).0;
      StageStep(s, s2, e, e2, e3, req, env, 2);
      var rc := VerifyFrom(s3.mem, req, env, 0);
      if rc != Success {
        AbandonLoses(s, s3, e, e3, rc);
      } else {
        CommitPhaseKeeps(s, s3, e, e3, req, env, now);
      }
  }
}
