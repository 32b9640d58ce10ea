/** What each provider operation answers and leaves, said without the functions that compute it,
    and what the commit marker authenticates. */
module ProviderAnswers {
  import opened Wrappers
  import opened ProviderState

  // ---- saving ----

  /** The outcome a save meets: refused without power, done when the script is used up. */
  ghost predicate Writes(s: State) {
    s.alive && (s.script == [] || s.script[0] == Saved || s.script[0] == CrashAfter)
  }

  /** A save writes the whole memory or nothing, and says so unless the power is gone. */
  lemma SaveAnsweredExactly(s: State)
    ensures var (t, rc) := SaveState(s);
            && (rc == Success <==> Writes(s)) && (rc != Success ==> rc == StorageWriteFailed)
            && t.disk == (if Writes(s) then s.mem else s.disk)
            && t.everDurable == (if Writes(s) then s.everDurable + s.mem.journal.Keys else s.everDurable)
            && t.mem == s.mem && t.ledger == s.ledger && t.ledgerDisk == s.ledgerDisk && t.commits == s.commits
            && (t.alive <==> s.alive && (s.script == [] || s.script[0] == Saved || s.script[0] == Refused))
            && t.script == (if s.alive && s.script != [] then s.script[1..] else s.script)
  {
  }

  /** A ledger row goes into memory whatever the save does, and the save writes the whole ledger
      or nothing. */
  lemma LedgerAnsweredExactly(s: State, p: Purpose, row: LedgerRow)
    ensures var t := LedgerPut(s, p, row);
            && t.ledger.Keys == s.ledger.Keys + {p} && t.ledger[p] == row
            && (forall q :: q in s.ledger && q != p ==> t.ledger[q] == s.ledger[q])
            && t.ledgerDisk == (if Writes(s) then t.ledger else s.ledgerDisk)
            && t.mem == s.mem && t.disk == s.disk && t.commits == s.commits && t.everDurable == s.everDurable
            && (t.alive <==> s.alive && (s.script == [] || s.script[0] == Saved || s.script[0] == Refused))
            && t.script == (if s.alive && s.script != [] then s.script[1..] else s.script)
  {
  }

  // ---- slots and proofs ----

  /** A slot is active if and only if it is there and opens under its own purpose, version and
      generation. */
  lemma SlotAnsweredExactly(m: Image, p: Purpose)
    ensures var slot := QuerySlot(m, p);
            && (slot.present <==> p in m.active)
            && (slot.state == Missing <==> p !in m.active)
            && (slot.state == ActiveKey <==>
                  p in m.active && m.active[p].sealed.purpose == p
                  && m.active[p].sealed.version == m.active[p].version
                  && m.active[p].sealed.generation == m.active[p].generation)
            && (p in m.active ==>
                  slot.state in {ActiveKey, InvalidKey} && slot.version == m.active[p].version
                  && slot.generation == m.active[p].generation)
  {
  }

  /** There is a proof if and only if the slot has the asked version and the module signed 64
      bytes; it is those. */
  lemma ProofAnsweredExactly(m: Image, p: Purpose, version: nat, signed: Option<seq<byte>>)
    ensures var proof := GenerateProof(m, p, version, signed);
            && (proof.Some? <==>
                  p in m.active && m.active[p].version == version && signed.Some? && |signed.value| == 64)
            && (proof.Some? ==> proof == signed)
  {
  }

  // ---- the commit marker ----

  /** The tag is over the generation and, per slot, version, key id, algorithm and generation. */
  ghost predicate Authenticates(m: Marker, generation: nat, active: map<Purpose, Slot>) {
    && m.Mac? && m.generation == generation && m.slots.Keys == active.Keys
    && forall p :: p in active ==>
         && m.slots[p].0 == active[p].version && m.slots[p].1 == active[p].keyIdDigest
         && m.slots[p].2 == active[p].algorithm && m.slots[p].3 == active[p].generation
  }

  lemma MarkerIs(generation: nat, active: map<Purpose, Slot>, m: Marker)
    ensures m == MarkerOf(generation, active) <==> Authenticates(m, generation, active)
  {
    if Authenticates(m, generation, active) { assert m.slots == MarkerOf(generation, active).slots; }
  }

  /** A fresh process serves the slots of a record if and only if its marker authenticates them;
      otherwise none, and everything else is read back as it is. */
  lemma LoadExactly(disk: Image)
    ensures var m := Load(disk);
            && m.active == (if Authenticates(disk.marker, disk.generation, disk.active) then disk.active else map[])
            && m == disk.(active := m.active)
  {
    MarkerIs(disk.generation, disk.active, disk.marker);
    hide MarkerOf;
  }

  /** Two records of any content with the same marker that are both served agree on generation,
      version, key id and algorithm of every slot: none of these can be altered on the disk. */
  lemma MarkerBindsSlots(a: Image, b: Image, p: Purpose)
    requires a.marker == b.marker && Load(a).active != map[] && Load(b).active != map[]
    ensures a.generation == b.generation && Load(a).active.Keys == Load(b).active.Keys
    ensures p in Load(a).active ==>
      var (s, t) := (Load(a).active[p], Load(b).active[p]);
      s.version == t.version && s.keyIdDigest == t.keyIdDigest && s.algorithm == t.algorithm
      && s.generation == t.generation
  {
    LoadExactly(a);
    LoadExactly(b);
    hide Load;
    assert a.marker.slots.Keys == b.marker.slots.Keys;
  }

  // ---- staging, commit, rollback ----

  /** A key that opened is staged for its purpose under the call's generation, sealed for exactly
      this purpose, version and generation, and the record is saved; nothing else is touched. */
  lemma UnwrapStages(s: State, item: Item, generation: nat, u: Unwrap)
    requires UnwrapCode(item, u) == Success
    ensures u.Opened?
    ensures var (t, rc) := UnwrapToStaging(s, item, generation, u);
            && t.mem.staging.Keys == s.mem.staging.Keys + {item.purpose} && t.mem.stagingGeneration == generation
            && (forall p :: p in s.mem.staging && p != item.purpose ==> t.mem.staging[p] == s.mem.staging[p])
            && t.mem.staging[item.purpose] ==
                 Slot(item.version, Digest(item.keyId), item.algorithm, item.validFrom, item.validTo, generation,
                      Sealed(item.purpose, item.version, generation, u.key))
            && t.mem == s.mem.(staging := t.mem.staging, stagingGeneration := generation)
            && t.disk == (if Writes(s) then t.mem else s.disk) && t.commits == s.commits
            && rc == (if Writes(s) then Success else StorageWriteFailed)
  {
  }

  /** A staged key verifies if and only if it is there, decrypts, and has its algorithm's size. */
  lemma VerifyAnsweredExactly(m: Image, p: Purpose, fault: bool)
    ensures VerifyStaging(m, p, fault) == Success <==>
      && p in m.staging && !fault
      && var s := m.staging[p];
         && s.sealed.purpose == p && s.sealed.version == s.version && s.sealed.generation == s.generation
         && ((|s.sealed.key| == 32 && s.algorithm in {"AES-256", "AES-256-GCM"})
             || (|s.sealed.key| == 16 && s.algorithm == "AES-128-GCM"))
    ensures VerifyStaging(m, p, fault) in {Success, WrappedKeyInvalid, Unsupported}
    ensures VerifyStaging(m, p, fault) == Unsupported <==>
      p in m.staging && m.staging[p].algorithm !in {"AES-256", "AES-256-GCM", "AES-128-GCM"}
  {
  }

  /** Both purposes are staged under this generation. */
  ghost predicate BothThere(m: Image, generation: nat) {
    && UplinkAead in m.staging && m.staging[UplinkAead].generation == generation
    && DownlinkAead in m.staging && m.staging[DownlinkAead].generation == generation
  }

  lemma BothThereIs(m: Image, generation: nat)
    ensures BothStagedAt(m, generation) <==> BothThere(m, generation)
  {
    assert UplinkAead in REQUIRED && DownlinkAead in REQUIRED;
  }

  /** The commit, for every memory and every outcome of the save: which code, and the whole state
      after it. Both staged slots become active, under a marker that authenticates all active
      slots, in the very save that makes them durable; or the active slots stay as they were. */
  lemma CommitAnsweredExactly(s: State, generation: nat, owner: Rid)
    ensures var (t, rc) := CommitBatch(s, generation, owner);
            && (rc == PartialRollback <==> !BothThere(s.mem, generation))
            && (rc == Conflict <==> BothThere(s.mem, generation) && s.mem.stagingGeneration != generation)
            && (rc == Success <==>
                  BothThere(s.mem, generation) && s.mem.stagingGeneration == generation && Writes(s))
            && (rc == PartialRollback || rc == Conflict ==> t == s)
            && (rc == Success ==>
                  && t.mem.active.Keys == s.mem.active.Keys + {UplinkAead, DownlinkAead}
                  && t.mem.active[UplinkAead] == s.mem.staging[UplinkAead]
                  && t.mem.active[DownlinkAead] == s.mem.staging[DownlinkAead]
                  && (forall p :: p in s.mem.active && p != UplinkAead && p != DownlinkAead ==>
                        t.mem.active[p] == s.mem.active[p])
                  && t.mem.generation == generation && t.mem.staging == map[] && t.mem.stagingGeneration == 0
                  && Authenticates(t.mem.marker, generation, t.mem.active)
                  && t.mem.journal == s.mem.journal && t.disk == t.mem
                  && t.commits[..|t.commits| - 1] == s.commits && |t.commits| == |s.commits| + 1)
            && (rc !in {PartialRollback, Conflict, Success} ==>
                  rc == StorageWriteFailed && t.disk == s.disk && t.commits == s.commits
                  && t.mem == s.mem.(staging := map[], stagingGeneration := 0))
  {
    BothThereIs(s.mem, generation);
    hide MarkerOf, BothStagedAt;
    assert UplinkAead in REQUIRED && DownlinkAead in REQUIRED;
    var active := s.mem.active + map p | p in REQUIRED && p in s.mem.staging :: s.mem.staging[p];
    MarkerIs(generation, active, MarkerOf(generation, active));
    if BothThere(s.mem, generation) && s.mem.stagingGeneration == generation {
      CommitActivates(s, generation, owner, active);
    }
  }

  lemma CommitActivates(s: State, generation: nat, owner: Rid, active: map<Purpose, Slot>)
    requires BothStagedAt(s.mem, generation) && s.mem.stagingGeneration == generation
    requires active == s.mem.active + map p | p in REQUIRED && p in s.mem.staging :: s.mem.staging[p]
    ensures var (t, rc) := CommitBatch(s, generation, owner);
            var batch := map p | p in REQUIRED && p in s.mem.staging :: s.mem.staging[p];
            && (rc == Success <==> Writes(s))
            && (rc == Success ==>
                  t.mem == s.mem.(active := active, generation := generation, marker := MarkerOf(generation, active),
                                  staging := map[], stagingGeneration := 0)
                  && t.disk == t.mem && t.commits == s.commits + [Commit(owner, generation, batch)])
            && (rc != Success ==>
                  rc == StorageWriteFailed && t.disk == s.disk && t.commits == s.commits
                  && t.mem == s.mem.(staging := map[], stagingGeneration := 0))
  {
    hide MarkerOf;
    var batch := map p | p in REQUIRED :: s.mem.staging[p];
    assert (map p | p in REQUIRED && p in s.mem.staging :: s.mem.staging[p]) == batch;
  }

  /** Rolling back drops the staging of this generation and saves; another's is a conflict. */
  lemma RollbackAnsweredExactly(s: State, generation: nat)
    ensures var (t, rc) := RollbackStaging(s, generation);
            && (rc == Conflict <==> s.mem.stagingGeneration != 0 && s.mem.stagingGeneration != generation)
            && (rc == Conflict ==> t == s)
            && (rc != Conflict ==>
                  t.mem == s.mem.(staging := map[], stagingGeneration := 0)
                  && t.disk == (if Writes(s) then t.mem else s.disk)
                  && rc == (if Writes(s) then Success else StorageWriteFailed))
  {
  }
}
