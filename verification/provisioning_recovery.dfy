/** Recovery of one entry, of all entries at start-up, and what a restart ends with. */
module ProvisioningRecovery {
  import opened ProviderState
  import opened Provisioning
  import opened ProvisioningInvariants
  import opened ProvisioningCalls

  /** `t` is `s` with the open entry `r` closed as `e1`; nothing else in memory has changed. */
  ghost predicate Settles(s: State, t: State, r: Rid, e1: Entry) {
    && r in s.mem.journal && SameRequest(e1, s.mem.journal[r]) && Terminal(e1.phase)
    && t.mem.journal == s.mem.journal[r := e1]
    && (t.disk == s.disk || t.disk.journal == s.mem.journal || t.disk.journal == s.mem.journal[r := e1])
    && t.commits == s.commits && (t.alive ==> s.alive)
  }

  /** Recovery closes the entry, as SUCCEEDED exactly when the active slots carry the
      entry's generation. */
  lemma RecoverKeeps(s: State, r: Rid, now: int)
    requires Inv(s) && r in s.mem.journal && !Terminal(s.mem.journal[r].phase)
    ensures var (t, e1) := RecoverEntry(s, s.mem.journal[r], now);
            Inv(t) && Settles(s, t, r, e1)
            && (e1.phase == Succeeded <==> s.mem.journal[r].generation == s.mem.generation)
  {
    var e := s.mem.journal[r];
    assert e.rid == r && e.generation >= 1;
    BothActiveIsGeneration(s.mem, s.commits, e.generation);
    if BothActiveAt(s.mem, e.generation) {
      RecoverForward(s, e, now);
    } else {
      RecoverBack(s, e, now);
    }
  }

  lemma ActiveSameAcks(e: Entry, e1: Entry)
    requires e1 == e.(phase := e1.phase, committedAt := e1.committedAt, items := AllActive(e.items))
    ensures SameRequest(e1, e)
  {
    forall i | 0 <= i < |e.items| ensures Acks(e1.items)[i] == Acks(e.items)[i] {}
    assert Acks(e1.items) == Acks(e.items);
  }

  lemma OpenNotStaged(s: State, e: Entry)
    requires Inv(s) && e.rid in s.mem.journal && s.mem.journal[e.rid] == e && e.generation == s.mem.generation
    ensures s.mem.stagingGeneration != e.generation
  {
  }

  lemma RecoverForward(s: State, e: Entry, now: int)
    requires Inv(s) && e.rid in s.mem.journal && s.mem.journal[e.rid] == e && !Terminal(e.phase)
    requires BothActiveAt(s.mem, e.generation) && e.generation == s.mem.generation && e.generation >= 1
    ensures var (t, e1) := RecoverEntry(s, e, now);
            Inv(t) && Settles(s, t, e.rid, e1) && e1.phase == Succeeded
  {
    var e1 := e.(phase := Succeeded, committedAt := now, items := AllActive(e.items));
    hide Inv, SaveState, SaveJournal, BothActiveAt, Acks, CommittedBy;
    ActiveSameAcks(e, e1);
    OpenNotStaged(s, e);
    SaveJournalKeeps(s, e1);
    var s1 := SaveJournal(s, e1).0;
    LedgerKeeps(s1, e1, e.generation, 0);
    SameInv(s1, UpdateLedger(s1, e1, e.generation, 0));
  }

  lemma SameInv(s: State, t: State)
    requires Inv(s) && t.mem == s.mem && t.disk == s.disk && t.commits == s.commits && t.everDurable == s.everDurable
    ensures Inv(t)
  {
  }

  lemma RecoverBack(s: State, e: Entry, now: int)
    requires Inv(s) && e.rid in s.mem.journal && s.mem.journal[e.rid] == e && !Terminal(e.phase)
    requires !BothActiveAt(s.mem, e.generation) && 1 <= e.generation <= s.mem.generation + 1
    requires e.generation != s.mem.generation
    ensures var (t, e1) := RecoverEntry(s, e, now);
            Inv(t) && Settles(s, t, e.rid, e1) && e1.phase == Failed
  {
    hide Inv, SaveState, SaveJournal, RollbackStaging, BothActiveAt;
    var e1 := e.(phase := Failed, lastError := FromCode(PartialRollback));
    RollbackKeeps(s, e.generation);
    var s1 := RollbackStaging(s, e.generation).0;
    SaveJournalKeeps(s1, e1);
  }

  // ---- all entries of a start-up ----

  ghost predicate Enumerates(rids: seq<Rid>, keys: set<Rid>) {
    (forall i, j :: 0 <= i < j < |rids| ==> rids[i] != rids[j]) && (forall r :: r in rids <==> r in keys)
  }

  /** What one entry may have become: closed if it was open, untouched otherwise. */
  ghost predicate Settled(before: Entry, after: Entry, generation: nat) {
    SameRequest(after, before) && Terminal(after.phase)
    && (Terminal(before.phase) ==> after == before)
    && (!Terminal(before.phase) ==> (after.phase == Succeeded <==> before.generation == generation))
  }

  /** The disk forgets no request and changes no entry it has seen closed. */
  ghost predicate DiskKept(before: Image, after: Image) {
    forall r :: r in before.journal ==>
      r in after.journal && (Terminal(before.journal[r].phase) ==> after.journal[r] == before.journal[r])
  }

  lemma RecoverAllKeeps(s: State, listed: map<Rid, Entry>, rids: seq<Rid>, clock: seq<int>)
    requires Inv(s) && |clock| == |rids|
    requires forall i, j :: 0 <= i < j < |rids| ==> rids[i] != rids[j]
    requires forall r :: r in rids ==> r in listed && r in s.mem.journal && s.mem.journal[r] == listed[r]
    ensures var t := RecoverAll(s, listed, rids, clock);
            && Inv(t) && t.commits == s.commits && t.mem.journal.Keys == s.mem.journal.Keys && (t.alive ==> s.alive)
            && (forall r :: r in s.mem.journal && r !in rids ==> t.mem.journal[r] == s.mem.journal[r])
            && (forall r :: r in rids ==> Settled(listed[r], t.mem.journal[r], s.mem.generation))
            && DiskKept(s.disk, t.disk)
    decreases |rids|
  {
    hide Inv, RecoverEntry, Settled;
    if rids != [] {
      var r := rids[0];
      var s1 := if Terminal(listed[r].phase) then s else RecoverEntry(s, listed[r], clock[0]).0;
      RecoverNext(s, s1, r, clock[0]);
      assert forall q :: q in rids[1..] ==> q in rids && q != r;
      RecoverAllKeeps(s1, listed, rids[1..], clock[1..]);
      forall q | q in rids ensures q == r || q in rids[1..] {}
    }
  }

  lemma RecoverNext(s: State, s1: State, r: Rid, now: int)
    requires Inv(s) && r in s.mem.journal
    requires s1 == if Terminal(s.mem.journal[r].phase) then s else RecoverEntry(s, s.mem.journal[r], now).0
    ensures Inv(s1) && s1.commits == s.commits && s1.mem.generation == s.mem.generation && (s1.alive ==> s.alive)
    ensures s1.mem.journal.Keys == s.mem.journal.Keys
    ensures forall q :: q in s.mem.journal && q != r ==> s1.mem.journal[q] == s.mem.journal[q]
    ensures Settled(s.mem.journal[r], s1.mem.journal[r], s.mem.generation) && DiskKept(s.disk, s1.disk)
  {
    hide Inv, RecoverEntry, SameRequest, DiskKept, Settles, Settled;
    ClosedOnDisk(s);
    if Terminal(s.mem.journal[r].phase) {
      NothingSettles(s, r);
    } else {
      RecoverKeeps(s, r, now);
      SettlesOne(s, s1, r, RecoverEntry(s, s.mem.journal[r], now).1);
    }
    SameGeneration(s, s1);
  }

  lemma NothingSettles(s: State, r: Rid)
    requires r in s.mem.journal && Terminal(s.mem.journal[r].phase)
    ensures Settled(s.mem.journal[r], s.mem.journal[r], s.mem.generation) && DiskKept(s.disk, s.disk)
  {
  }

  lemma SettlesOne(s: State, t: State, r: Rid, e1: Entry)
    requires DiskKept(s.disk, s.mem) && Settles(s, t, r, e1) && !Terminal(s.mem.journal[r].phase)
    requires e1.phase == Succeeded <==> s.mem.journal[r].generation == s.mem.generation
    ensures t.mem.journal.Keys == s.mem.journal.Keys && t.commits == s.commits && (t.alive ==> s.alive)
    ensures forall q :: q in s.mem.journal && q != r ==> t.mem.journal[q] == s.mem.journal[q]
    ensures Settled(s.mem.journal[r], t.mem.journal[r], s.mem.generation) && DiskKept(s.disk, t.disk)
  {
  }

  lemma ClosedOnDisk(s: State)
    requires Inv(s)
    ensures DiskKept(s.disk, s.mem)
  {
  }

  lemma SameRequestAsItself(e: Entry)
    ensures SameRequest(e, e)
  {
  }

  lemma SameGeneration(s: State, t: State)
    requires Inv(s) && Inv(t) && t.commits == s.commits
    ensures t.mem.generation == s.mem.generation == t.disk.generation == s.disk.generation
    ensures t.mem.active == s.mem.active == t.disk.active == s.disk.active
  {
  }

  lemma PowerOnKeeps(s: State, script: seq<SaveOutcome>)
    requires Inv(s)
    ensures Inv(PowerOn(s, script)) && PowerOn(s, script).mem == s.disk
  {
    LoadReadsBack(s);
    DiskNotAhead(s);
    LagsBehindItself(s.disk, s.commits);
  }

  lemma DiskNotAhead(s: State)
    requires Inv(s)
    ensures forall r :: r in s.disk.journal && s.disk.journal[r].phase == Succeeded ==>
              s.disk.journal[r].generation <= s.disk.generation
  {
  }

  lemma AllClosedUnstaged(m: Image)
    requires StagingGood(m) && forall r :: r in m.journal ==> Terminal(m.journal[r].phase)
    ensures m.staging == map[] && m.stagingGeneration == 0
  {
  }

  /** A restart, wherever the power went before: every journal entry ends closed, nothing is
      staged, the active slots are the whole last committed batch and the commit marker
      authenticates them. If the start-up itself loses power this describes the memory that
      is lost again; the disk still satisfies the invariant and the next restart applies. */
  lemma RestartSettles(s: State, script: seq<SaveOutcome>, rids: seq<Rid>, clock: seq<int>)
    requires Inv(s) && |clock| == |rids| && Enumerates(rids, s.disk.journal.Keys)
    ensures var t := Restart(s, script, rids, clock);
            && Inv(t) && t.commits == s.commits
            && t.mem.staging == map[] && t.mem.stagingGeneration == 0
            && t.mem.active == ActiveAfter(s.commits) && ActiveGood(t.mem, s.commits)
            && t.mem.journal.Keys == s.disk.journal.Keys
            && (forall r :: r in s.disk.journal ==> Settled(s.disk.journal[r], t.mem.journal[r], |s.commits|))
            && DiskKept(s.disk, t.disk)
  {
    PowerOnKeeps(s, script);
    var s1 := PowerOn(s, script);
    RecoverAllKeeps(s1, s1.mem.journal, rids, clock);
    var t := Restart(s, script, rids, clock);
    forall r | r in t.mem.journal ensures Terminal(t.mem.journal[r].phase) {
      assert r in rids;
    }
    AllClosedUnstaged(t.mem);
  }
}
