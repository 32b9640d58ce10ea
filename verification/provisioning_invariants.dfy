/** What every provider operation keeps, and what each service call does to one request's
    journal entry, the active slots and the saved record. */
module ProvisioningInvariants {
  import opened Wrappers
  import opened ProviderState
  import opened Provisioning

  // ---- what a caller was told about one item ----

  datatype Ack = Ack(
    purpose: Purpose, keyId: string, version: nat, algorithm: string, envelopeDigest: seq<byte>, kcv: seq<byte>)

  function AckOf(st: ItemStatus): Ack {
    Ack(st.purpose, st.keyId, st.version, st.algorithm, st.envelopeDigest, st.kcv)
  }

  function Acks(items: seq<ItemStatus>): (r: seq<Ack>)
    ensures |r| == |items|
    ensures forall i :: 0 <= i < |items| ==> r[i] == AckOf(items[i])
  {
    seq(|items|, i requires 0 <= i < |items| => AckOf(items[i]))
  }

  // ---- the commits so far ----

  ghost predicate GoodSlots(slots: map<Purpose, Slot>, generation: nat) {
    slots.Keys == REQUIRED && forall p :: p in slots ==> slots[p].generation == generation && Unseals(p, slots[p])
  }

  ghost predicate Rises(older: map<Purpose, Slot>, newer: map<Purpose, Slot>) {
    forall p :: p in older && p in newer ==> older[p].version < newer[p].version
  }

  /** Commit `i` has generation `i + 1` and both slots, versions rise from each commit to any
      later one, and no request commits twice. */
  ghost predicate CommitsGood(commits: seq<Commit>) {
    && (forall i :: 0 <= i < |commits| ==> commits[i].generation == i + 1 && GoodSlots(commits[i].slots, i + 1))
    && (forall i, j :: 0 <= i < j < |commits| ==>
          Rises(commits[i].slots, commits[j].slots) && commits[i].rid != commits[j].rid)
  }

  function ActiveAfter(commits: seq<Commit>): map<Purpose, Slot> {
    if commits == [] then map[] else commits[|commits| - 1].slots
  }

  ghost predicate CommittedBy(commits: seq<Commit>, rid: Rid) {
    exists i :: 0 <= i < |commits| && commits[i].rid == rid
  }

  ghost predicate HasPurpose(items: seq<ItemStatus>, p: Purpose) {
    exists i :: 0 <= i < |items| && items[i].purpose == p
  }

  /** The items are those of the slots, all of them. */
  ghost predicate ItemsMatch(items: seq<ItemStatus>, slots: map<Purpose, Slot>) {
    && (forall i :: 0 <= i < |items| ==>
          items[i].purpose in slots
          && slots[items[i].purpose].version == items[i].version
          && slots[items[i].purpose].keyIdDigest == Digest(items[i].keyId)
          && slots[items[i].purpose].algorithm == items[i].algorithm)
    && (forall p :: p in slots ==> HasPurpose(items, p))
  }

  // ---- one image ----

  ghost predicate ActiveGood(m: Image, commits: seq<Commit>) {
    && m.generation == |commits|
    && m.active == ActiveAfter(commits)
    && m.marker == (if commits == [] then NoMarker else MarkerOf(m.generation, m.active))
  }

  ghost predicate OpenAt(m: Image, generation: nat) {
    exists r :: r in m.journal && !Terminal(m.journal[r].phase) && m.journal[r].generation == generation
  }

  ghost predicate StagingGood(m: Image) {
    && m.staging.Keys <= REQUIRED
    && (forall p :: p in m.staging ==> m.staging[p].generation == m.stagingGeneration && Unseals(p, m.staging[p]))
    && (m.stagingGeneration == 0 <==> m.staging == map[])
    && (m.stagingGeneration != 0 ==> m.stagingGeneration == m.generation + 1 && OpenAt(m, m.stagingGeneration))
  }

  ghost predicate JournalGood(m: Image, commits: seq<Commit>) {
    && (forall r :: r in m.journal ==> m.journal[r].rid == r && 1 <= m.journal[r].generation <= m.generation + 1)
    && (forall i :: 0 <= i < |commits| ==>
          commits[i].rid in m.journal
          && m.journal[commits[i].rid].generation == i + 1
          && ItemsMatch(m.journal[commits[i].rid].items, commits[i].slots))
  }

  ghost predicate ImageGood(m: Image, commits: seq<Commit>) {
    ActiveGood(m, commits) && StagingGood(m) && JournalGood(m, commits)
  }

  // ---- memory against disk ----

  ghost predicate SameRequest(a: Entry, b: Entry) {
    a.rid == b.rid && a.generation == b.generation && a.requestDigest == b.requestDigest
    && Acks(a.items) == Acks(b.items)
  }

  /** The saved record lags behind the memory, but never about a commit and never about an
      entry it has seen closed. */
  ghost predicate Lags(disk: Image, mem: Image) {
    && disk.journal.Keys <= mem.journal.Keys
    && (forall r :: r in disk.journal ==> SameRequest(disk.journal[r], mem.journal[r]))
    && (forall r :: r in disk.journal && Terminal(disk.journal[r].phase) ==> mem.journal[r] == disk.journal[r])
    && (forall r :: r in mem.journal && mem.journal[r].generation <= disk.generation ==> r in disk.journal)
    && (forall r :: r in mem.journal && mem.journal[r].phase == Succeeded ==>
          mem.journal[r].generation <= disk.generation
          && (disk.journal[r].phase == Succeeded || disk.generation == mem.journal[r].generation))
    && (forall r :: r in disk.journal && mem.journal[r].phase == Failed ==>
          disk.journal[r].phase == Failed || disk.journal[r].generation != disk.generation)
  }

  ghost predicate Inv(s: State) {
    && CommitsGood(s.commits)
    && ImageGood(s.mem, s.commits)
    && ImageGood(s.disk, s.commits)
    && Lags(s.disk, s.mem)
    && s.everDurable == s.disk.journal.Keys
  }

  const INITIAL := State(EMPTY_IMAGE, EMPTY_IMAGE, map[], map[], true, [], [], {})

  // ---- small facts ----

  lemma BothActiveIsGeneration(m: Image, commits: seq<Commit>, generation: nat)
    requires CommitsGood(commits) && ActiveGood(m, commits) && generation >= 1
    ensures BothActiveAt(m, generation) <==> m.generation == generation
  {
    if commits == [] {
      assert UplinkAead in REQUIRED && !QuerySlot(m, UplinkAead).present;
    } else {
      var last := commits[|commits| - 1];
      assert GoodSlots(last.slots, |commits|);
      assert UplinkAead in REQUIRED && QuerySlot(m, UplinkAead).generation == |commits|;
    }
  }

  lemma NextIsOneMore(m: Image, commits: seq<Commit>)
    requires CommitsGood(commits) && ActiveGood(m, commits)
    ensures NextGeneration(m) == |commits| + 1
  {
    if commits != [] {
      assert GoodSlots(commits[|commits| - 1].slots, |commits|);
      assert UplinkAead in REQUIRED && DownlinkAead in REQUIRED;
    }
  }

  lemma LoadReadsBack(s: State)
    requires Inv(s)
    ensures Load(s.disk) == s.disk
  {
  }

  lemma InvParts(s: State)
    requires Inv(s)
    ensures CommitsGood(s.commits) && Lags(s.disk, s.mem) && s.everDurable == s.disk.journal.Keys
    ensures ActiveGood(s.mem, s.commits) && StagingGood(s.mem) && JournalGood(s.mem, s.commits)
    ensures ActiveGood(s.disk, s.commits) && StagingGood(s.disk) && JournalGood(s.disk, s.commits)
  {
    hide CommitsGood, ActiveGood, StagingGood, JournalGood, Lags;
  }

  lemma LedgerKeeps(s: State, e: Entry, generation: nat, i: nat)
    requires i <= |e.items|
    ensures var t := UpdateLedger(s, e, generation, i);
            t.mem == s.mem && t.disk == s.disk && t.commits == s.commits && t.everDurable == s.everDurable
            && (t.alive ==> s.alive)
    decreases |e.items| - i
  {
  }

  // ---- provider operations keep the invariant ----

  /** The state `t` came from `s` by a save with memory `m` in place. */
  ghost predicate Wrote(s: State, t: State, m: Image) {
    t.mem == m && (t.disk == s.disk || t.disk == m) && t.commits == s.commits && (t.alive ==> s.alive)
  }

  lemma LagsBehindItself(m: Image, commits: seq<Commit>)
    requires JournalGood(m, commits) && m.generation == |commits|
    requires forall r :: r in m.journal && m.journal[r].phase == Succeeded ==> m.journal[r].generation <= m.generation
    ensures Lags(m, m)
  {
  }

  lemma SaveKeeps(s: State, m: Image)
    requires Inv(s) && ImageGood(m, s.commits) && Lags(s.disk, m)
    ensures var (t, rc) := SaveState(s.(mem := m));
            Inv(t) && Wrote(s, t, m) && (rc == Success ==> t.disk == m)
  {
    var (t, rc) := SaveState(s.(mem := m));
    if Lands(NextOutcome(s.alive, s.script)) {
      LagsBehindItself(m, s.commits);
      assert t == t.(mem := m, disk := m, commits := s.commits);
      assert t.everDurable == m.journal.Keys;
    } else {
      assert t == t.(mem := m, disk := s.disk, commits := s.commits, everDurable := s.everDurable);
    }
  }

  ghost predicate MayRecord(s: State, e: Entry) {
    && 1 <= e.generation <= s.mem.generation + 1
    && (e.rid in s.mem.journal ==> SameRequest(s.mem.journal[e.rid], e) && !Terminal(s.mem.journal[e.rid].phase))
    && (e.rid !in s.mem.journal ==> e.generation == s.mem.generation + 1 && !CommittedBy(s.commits, e.rid))
    && (Terminal(e.phase) ==> s.mem.stagingGeneration != e.generation)
    && (e.phase == Succeeded ==> e.generation == s.mem.generation && e.rid in s.mem.journal)
    && (e.phase == Failed ==> e.generation != s.mem.generation)
  }

  lemma SameItemsMatch(a: Entry, b: Entry, slots: map<Purpose, Slot>)
    requires SameRequest(a, b) && ItemsMatch(a.items, slots)
    ensures ItemsMatch(b.items, slots)
  {
    forall k | 0 <= k < |b.items|
      ensures b.items[k].purpose in slots && slots[b.items[k].purpose].version == b.items[k].version
           && slots[b.items[k].purpose].keyIdDigest == Digest(b.items[k].keyId)
           && slots[b.items[k].purpose].algorithm == b.items[k].algorithm
    {
      assert Acks(a.items)[k] == Acks(b.items)[k];
    }
    forall p | p in slots ensures HasPurpose(b.items, p) {
      var k :| 0 <= k < |a.items| && a.items[k].purpose == p;
      assert Acks(a.items)[k] == Acks(b.items)[k] && b.items[k].purpose == p;
    }
  }

  lemma RecordedJournalGood(m: Image, commits: seq<Commit>, e: Entry)
    requires JournalGood(m, commits) && 1 <= e.generation <= m.generation + 1
    requires e.rid in m.journal ==> SameRequest(m.journal[e.rid], e)
    requires e.rid !in m.journal ==> !CommittedBy(commits, e.rid)
    ensures JournalGood(m.(journal := m.journal[e.rid := e]), commits)
  {
    hide ItemsMatch, SameRequest;
    forall i | 0 <= i < |commits| && commits[i].rid == e.rid
      ensures e.generation == i + 1 && ItemsMatch(e.items, commits[i].slots)
    {
      assert CommittedBy(commits, e.rid);
      SameGenerations(m.journal[e.rid], e);
      SameItemsMatch(m.journal[e.rid], e, commits[i].slots);
    }
  }

  lemma SameGenerations(a: Entry, b: Entry)
    requires SameRequest(a, b)
    ensures a.generation == b.generation
  {
  }

  lemma RecordedStagingGood(m: Image, e: Entry)
    requires StagingGood(m) && (e.rid in m.journal ==> e.generation == m.journal[e.rid].generation)
    requires Terminal(e.phase) ==> m.stagingGeneration != e.generation
    ensures StagingGood(m.(journal := m.journal[e.rid := e]))
  {
    var n := m.(journal := m.journal[e.rid := e]);
    if m.stagingGeneration != 0 {
      var r :| r in m.journal && !Terminal(m.journal[r].phase) && m.journal[r].generation == m.stagingGeneration;
      assert r in n.journal && !Terminal(n.journal[r].phase) && n.journal[r].generation == n.stagingGeneration;
    }
  }

  lemma RecordedLags(s: State, e: Entry)
    requires Inv(s) && MayRecord(s, e)
    ensures Lags(s.disk, s.mem.(journal := s.mem.journal[e.rid := e]))
  {
    hide Inv, StagingGood, JournalGood, CommittedBy, CommitsGood, Acks;
    InvParts(s);
  }

  /** A journal write: memory takes the entry; the disk takes the whole memory or nothing. */
  lemma SaveJournalKeeps(s: State, e: Entry)
    requires Inv(s) && MayRecord(s, e)
    ensures var (t, rc) := SaveJournal(s, e);
            Inv(t) && Wrote(s, t, s.mem.(journal := s.mem.journal[e.rid := e]))
  {
    hide Inv, StagingGood, JournalGood, CommittedBy, CommitsGood, Lags, SaveState;
    InvParts(s);
    RecordedJournalGood(s.mem, s.commits, e);
    RecordedStagingGood(s.mem, e);
    RecordedLags(s, e);
    SaveKeeps(s, s.mem.(journal := s.mem.journal[e.rid := e]));
  }

  function WithStaged(m: Image, item: Item, generation: nat, key: seq<byte>): Image {
    m.(staging := m.staging[item.purpose := StagedSlot(item, generation, key)], stagingGeneration := generation)
  }

  lemma StagedImageGood(m: Image, commits: seq<Commit>, disk: Image, item: Item, generation: nat, key: seq<byte>)
    requires ImageGood(m, commits) && Lags(disk, m) && item.purpose in REQUIRED
    requires generation == m.generation + 1 && OpenAt(m, generation)
    ensures ImageGood(WithStaged(m, item, generation, key), commits)
    ensures Lags(disk, WithStaged(m, item, generation, key))
  {
    var n := WithStaged(m, item, generation, key);
    assert item.purpose in n.staging;
    assert StagingGood(n) by {
      var r :| r in m.journal && !Terminal(m.journal[r].phase) && m.journal[r].generation == generation;
      assert r in n.journal && !Terminal(n.journal[r].phase) && n.journal[r].generation == generation;
    }
    assert JournalGood(n, commits);
  }

  lemma StageKeeps(s: State, item: Item, generation: nat, u: Unwrap)
    requires Inv(s) && item.purpose in REQUIRED
    requires generation == s.mem.generation + 1 && OpenAt(s.mem, generation)
    requires UnwrapCode(item, u) == Success
    ensures var (t, rc) := UnwrapToStaging(s, item, generation, u);
            Inv(t) && Wrote(s, t, WithStaged(s.mem, item, generation, u.key)) && (rc == Success || IsOutcomeUnknown(rc))
  {
    hide Inv, StagingGood, JournalGood, CommitsGood, Lags, ActiveGood;
    InvParts(s);
    StagedImageGood(s.mem, s.commits, s.disk, item, generation, u.key);
    SaveKeeps(s, WithStaged(s.mem, item, generation, u.key));
  }

  lemma UnstagedGood(m: Image, disk: Image, commits: seq<Commit>)
    requires ImageGood(m, commits) && Lags(disk, m)
    ensures ImageGood(WithoutStaging(m), commits) && Lags(disk, WithoutStaging(m))
  {
    var n := WithoutStaging(m);
    assert JournalGood(n, commits);
  }

  lemma StagingNumbers(m: Image)
    requires StagingGood(m)
    ensures m.stagingGeneration == 0 <==> m.staging == map[]
  {
  }

  lemma RollbackKeeps(s: State, generation: nat)
    requires Inv(s) && generation >= 1
    ensures var (t, rc) := RollbackStaging(s, generation);
            Inv(t) && t.mem.stagingGeneration != generation
            && Wrote(s, t, s.mem.(staging := t.mem.staging, stagingGeneration := t.mem.stagingGeneration))
  {
    hide Inv, JournalGood, CommitsGood, Lags, ActiveGood, StagingGood;
    InvParts(s);
    StagingNumbers(s.mem);
    UnstagedGood(s.mem, s.disk, s.commits);
    SaveKeeps(s, WithoutStaging(s.mem));
  }

  ghost predicate MayCommit(s: State, owner: Rid) {
    && owner in s.mem.journal && !CommittedBy(s.commits, owner)
    && !Terminal(s.mem.journal[owner].phase)
    && s.mem.journal[owner].generation == s.mem.generation + 1
    && BothStagedAt(s.mem, s.mem.generation + 1)
    && ItemsMatch(s.mem.journal[owner].items, s.mem.staging)
    && Rises(s.mem.active, s.mem.staging)
  }

  lemma RisesThrough(a: map<Purpose, Slot>, b: map<Purpose, Slot>, c: map<Purpose, Slot>)
    requires Rises(a, b) && Rises(b, c) && a.Keys <= b.Keys
    ensures Rises(a, c)
  {
  }

  lemma CommitsGrow(m: Image, commits: seq<Commit>, owner: Rid)
    requires CommitsGood(commits) && ActiveGood(m, commits) && !CommittedBy(commits, owner)
    requires GoodSlots(m.staging, m.generation + 1) && Rises(m.active, m.staging)
    ensures CommitsGood(commits + [Commit(owner, m.generation + 1, m.staging)])
  {
    var more := commits + [Commit(owner, m.generation + 1, m.staging)];
    forall i, j | 0 <= i < j < |more| ensures Rises(more[i].slots, more[j].slots) && more[i].rid != more[j].rid {
      if j == |commits| { LastRises(m, commits, owner, i); }
    }
  }

  lemma LastRises(m: Image, commits: seq<Commit>, owner: Rid, i: nat)
    requires CommitsGood(commits) && ActiveGood(m, commits) && !CommittedBy(commits, owner)
    requires Rises(m.active, m.staging) && i < |commits|
    ensures Rises(commits[i].slots, m.staging) && commits[i].rid != owner
  {
    hide Rises, MarkerOf;
    var last := |commits| - 1;
    assert m.active == commits[last].slots;
    if i < last {
      assert GoodSlots(commits[i].slots, i + 1) && GoodSlots(commits[last].slots, last + 1);
      RisesThrough(commits[i].slots, m.active, m.staging);
    }
  }

  lemma StagedSlotsGood(m: Image, generation: nat)
    requires StagingGood(m) && BothStagedAt(m, generation) && generation == m.generation + 1
    ensures m.staging.Keys == REQUIRED && GoodSlots(m.staging, generation) && m.stagingGeneration == generation
  {
    assert UplinkAead in REQUIRED && DownlinkAead in REQUIRED;
  }

  function AfterCommit(m: Image): Image {
    m.(active := m.staging, generation := m.generation + 1,
       marker := MarkerOf(m.generation + 1, m.staging), staging := map[], stagingGeneration := 0)
  }

  lemma CommittedJournalGood(m: Image, commits: seq<Commit>, owner: Rid)
    requires JournalGood(m, commits) && m.generation == |commits| && owner in m.journal
    requires m.journal[owner].generation == m.generation + 1 && ItemsMatch(m.journal[owner].items, m.staging)
    ensures JournalGood(AfterCommit(m), commits + [Commit(owner, m.generation + 1, m.staging)])
  {
    hide ItemsMatch, MarkerOf;
  }

  lemma CommittedImageGood(s: State, owner: Rid)
    requires Inv(s) && MayCommit(s, owner)
    ensures ImageGood(AfterCommit(s.mem), s.commits + [Commit(owner, s.mem.generation + 1, s.mem.staging)])
    ensures Lags(AfterCommit(s.mem), AfterCommit(s.mem))
  {
    hide Inv, JournalGood, CommitsGood, BothStagedAt, Rises, CommittedBy, MarkerOf, Lags;
    InvParts(s);
    SucceededBehind(s);
    var commits := s.commits + [Commit(owner, s.mem.generation + 1, s.mem.staging)];
    CommittedJournalGood(s.mem, s.commits, owner);
    LagsBehindItself(AfterCommit(s.mem), commits);
  }

  lemma SucceededBehind(s: State)
    requires Inv(s)
    ensures forall r :: r in s.mem.journal && s.mem.journal[r].phase == Succeeded ==>
              s.mem.journal[r].generation <= s.mem.generation
  {
  }

  function WithoutStaging(m: Image): Image { m.(staging := map[], stagingGeneration := 0) }

  lemma CommitUnfolds(s: State, owner: Rid)
    requires s.mem.staging.Keys == REQUIRED && s.mem.active.Keys <= REQUIRED
    requires s.mem.stagingGeneration == s.mem.generation + 1 && BothStagedAt(s.mem, s.mem.generation + 1)
    ensures var g := s.mem.generation + 1;
            var (t, rc) := CommitBatch(s, g, owner);
            var lands := Lands(NextOutcome(s.alive, s.script));
            && (rc == if lands then Success else StorageWriteFailed)
            && t.alive == (s.alive && !LosesPower(NextOutcome(s.alive, s.script)))
            && t.script == ScriptTail(s.alive, s.script)
            && t.mem == (if lands then AfterCommit(s.mem) else WithoutStaging(s.mem))
            && t.disk == (if lands then AfterCommit(s.mem) else s.disk)
            && t.commits == (if lands then s.commits + [Commit(owner, g, s.mem.staging)] else s.commits)
            && t.everDurable == (if lands then s.everDurable + s.mem.journal.Keys else s.everDurable)
  {
    var batch := map p | p in REQUIRED :: s.mem.staging[p];
    assert batch == s.mem.staging;
    assert s.mem.active + batch == s.mem.staging;
  }

  lemma CommittedInv(s: State, owner: Rid, t: State)
    requires Inv(s) && MayCommit(s, owner)
    requires t.mem == AfterCommit(s.mem) && t.disk == t.mem
    requires t.commits == s.commits + [Commit(owner, s.mem.generation + 1, s.mem.staging)]
    requires t.everDurable == s.everDurable + s.mem.journal.Keys
    ensures Inv(t)
  {
    hide JournalGood, CommitsGood, Lags, ActiveGood, StagingGood, Rises, CommittedBy, MarkerOf, ItemsMatch;
    InvParts(s);
    StagedSlotsGood(s.mem, s.mem.generation + 1);
    CommitsGrow(s.mem, s.commits, owner);
    CommittedImageGood(s, owner);
    DurableBehind(s);
    assert s.everDurable + s.mem.journal.Keys == s.mem.journal.Keys;
  }

  lemma DurableBehind(s: State)
    requires Inv(s)
    ensures s.everDurable <= s.mem.journal.Keys
  {
  }

  lemma UncommittedInv(s: State, t: State)
    requires Inv(s)
    requires t.mem == WithoutStaging(s.mem) && t.disk == s.disk
    requires t.commits == s.commits && t.everDurable == s.everDurable
    ensures Inv(t)
  {
    UnstagedGood(s.mem, s.disk, s.commits);
  }

  lemma StagedKeys(s: State, owner: Rid)
    requires Inv(s) && MayCommit(s, owner)
    ensures s.mem.staging.Keys == REQUIRED && s.mem.active.Keys <= REQUIRED
    ensures s.mem.stagingGeneration == s.mem.generation + 1
  {
    assert UplinkAead in REQUIRED && DownlinkAead in REQUIRED;
    if s.commits != [] { assert GoodSlots(ActiveAfter(s.commits), |s.commits|); }
  }

  /** The commit: on success both active slots are the staged ones and the saved record
      holds them; otherwise nothing active has changed, on disk or in memory. */
  lemma CommitKeeps(s: State, owner: Rid)
    requires Inv(s) && MayCommit(s, owner)
    ensures var (t, rc) := CommitBatch(s, s.mem.generation + 1, owner);
            && Inv(t) && (t.alive ==> s.alive)
            && (rc == Success ==>
                  (t.commits == s.commits + [Commit(owner, s.mem.generation + 1, s.mem.staging)]
                   && t.mem == AfterCommit(s.mem) && t.disk == t.mem))
            && (rc != Success ==>
                  (rc == StorageWriteFailed && t.commits == s.commits && t.disk == s.disk
                   && t.mem == WithoutStaging(s.mem)))
  {
    StagedKeys(s, owner);
    CommitUnfolds(s, owner);
    var t := CommitBatch(s, s.mem.generation + 1, owner).0;
    if Lands(NextOutcome(s.alive, s.script)) {
      CommittedInv(s, owner, t);
    } else {
      UncommittedInv(s, t);
    }
  }
}
