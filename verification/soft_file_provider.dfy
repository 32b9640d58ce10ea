/** The soft-file provider and the metadata ledger as objects: fields changed in place, every
    method equal to the corresponding state function. */
module SoftFileProvider {
  import opened Wrappers
  import opened ProviderState

  /** What survives a power loss: the provider's record and the ledger's rows, each replaced
      as a whole. */
  class Disk {
    var saved: Image
    var savedRows: map<Purpose, LedgerRow>
    var alive: bool
    var script: seq<SaveOutcome>
    ghost var commits: seq<Commit>
    ghost var everDurable: set<Rid>

    constructor ()
      ensures saved == EMPTY_IMAGE && savedRows == map[] && alive && script == []
      ensures commits == [] && everDurable == {}
    {
      saved, savedRows, alive, script := EMPTY_IMAGE, map[], true, [];
      commits, everDurable := [], {};
    }

    method TakeOutcome() returns (o: SaveOutcome)
      modifies this`alive, this`script
      ensures o == NextOutcome(old(alive), old(script))
      ensures alive == (old(alive) && !LosesPower(o)) && script == ScriptTail(old(alive), old(script))
    {
      if !alive { return Refused; }
      if script == [] { return Saved; }
      o, script := script[0], script[1..];
      if LosesPower(o) { alive := false; }
    }

    method Replace(record: Image) returns (landed: bool)
      modifies this`saved, this`alive, this`script, this`everDurable
      ensures var o := NextOutcome(old(alive), old(script));
              && landed == Lands(o)
              && alive == (old(alive) && !LosesPower(o)) && script == ScriptTail(old(alive), old(script))
              && saved == (if landed then record else old(saved))
              && everDurable == (if landed then old(everDurable) + record.journal.Keys else old(everDurable))
    {
      var o := TakeOutcome();
      landed := Lands(o);
      if landed {
        saved := record;
        everDurable := everDurable + record.journal.Keys;
      }
    }

    method ReplaceRows(rows: map<Purpose, LedgerRow>) returns (landed: bool)
      modifies this`savedRows, this`alive, this`script
      ensures var o := NextOutcome(old(alive), old(script));
              && landed == Lands(o)
              && alive == (old(alive) && !LosesPower(o)) && script == ScriptTail(old(alive), old(script))
              && savedRows == (if landed then rows else old(savedRows))
    {
      var o := TakeOutcome();
      landed := Lands(o);
      if landed { savedRows := rows; }
    }
  }

  /** The ledger in memory, saved after every change; a failed save leaves the change in
      memory. */
  class SecureMetadataLedger {
    const disk: Disk
    var entries: map<Purpose, LedgerRow>

    constructor (disk: Disk)
      ensures this.disk == disk && entries == map[]
    {
      this.disk := disk;
      entries := map[];
    }

    method Load()
      modifies this
      ensures entries == disk.savedRows
    {
      entries := disk.savedRows;
    }

    method Put(p: Purpose, row: LedgerRow) returns (rc: Code)
      modifies this, disk`savedRows, disk`alive, disk`script
      ensures entries == old(entries)[p := row]
      ensures var o := NextOutcome(old(disk.alive), old(disk.script));
              && rc == (if Lands(o) then Success else StorageWriteFailed)
              && disk.alive == (old(disk.alive) && !LosesPower(o))
              && disk.script == ScriptTail(old(disk.alive), old(disk.script))
              && disk.savedRows == (if Lands(o) then entries else old(disk.savedRows))
    {
      entries := entries[p := row];
      var landed := disk.ReplaceRows(entries);
      rc := if landed then Success else StorageWriteFailed;
    }
  }

  class SoftFileBusinessKeyProvider {
    const disk: Disk
    var active: map<Purpose, Slot>
    var staging: map<Purpose, Slot>
    var stagingGeneration: nat
    var generation: nat
    var commitMarker: Marker
    var journal: map<Rid, Entry>

    ghost function Memory(): Image
      reads this
    {
      Image(active, staging, stagingGeneration, generation, commitMarker, journal)
    }

    /** The whole state, with `rows` standing for the ledger's memory. */
    ghost function View(rows: map<Purpose, LedgerRow>): State
      reads this, disk
    {
      State(Memory(), disk.saved, rows, disk.savedRows, disk.alive, disk.script, disk.commits, disk.everDurable)
    }

    constructor (disk: Disk)
      ensures this.disk == disk && Memory() == EMPTY_IMAGE
    {
      this.disk := disk;
      active, staging, stagingGeneration, generation := map[], map[], 0, 0;
      commitMarker, journal := NoMarker, map[];
    }

    method ComputeCommitMarker() returns (m: Marker)
      ensures m == MarkerOf(generation, active)
    {
      var rows: map<Purpose, (nat, Digest, string, nat)> := map[];
      var todo := active.Keys;
      while todo != {}
        invariant todo <= active.Keys && rows.Keys == active.Keys - todo
        invariant forall p :: p in rows ==>
          rows[p] == (active[p].version, active[p].keyIdDigest, active[p].algorithm, active[p].generation)
        decreases |todo|
      {
        var p :| p in todo;
        rows := rows[p := (active[p].version, active[p].keyIdDigest, active[p].algorithm, active[p].generation)];
        todo := todo - {p};
      }
      m := Mac(generation, rows);
    }

    method SaveState(ghost rows: map<Purpose, LedgerRow>) returns (rc: Code)
      modifies disk`saved, disk`alive, disk`script, disk`everDurable
      ensures (View(rows), rc) == ProviderState.SaveState(old(View(rows)))
    {
      var landed := disk.Replace(Image(active, staging, stagingGeneration, generation, commitMarker, journal));
      rc := if landed then Success else StorageWriteFailed;
    }

    /** Read the record back; without a valid commit marker no slot is active. */
    method Initialize(ghost rows: map<Purpose, LedgerRow>)
      modifies this
      ensures View(rows) == old(View(rows)).(mem := Load(old(disk.saved)))
    {
      active, staging, stagingGeneration := disk.saved.active, disk.saved.staging, disk.saved.stagingGeneration;
      generation, commitMarker, journal := disk.saved.generation, disk.saved.marker, disk.saved.journal;
      if active != map[] {
        var expected := ComputeCommitMarker();
        if commitMarker != expected { active := map[]; }
      }
    }

    method QuerySlot(p: Purpose) returns (slot: SlotInfo)
      ensures slot == ProviderState.QuerySlot(Memory(), p)
    {
      if p !in active { return SlotInfo(false, Missing, 0, 0); }
      var s := active[p];
      slot := SlotInfo(true, if Unseals(p, s) then ActiveKey else InvalidKey, s.version, s.generation);
    }

    method UnwrapToStaging(item: Item, gen: nat, u: Unwrap, ghost rows: map<Purpose, LedgerRow>)
      returns (rc: Code, actualKcv: seq<byte>)
      modifies this`staging, this`stagingGeneration, disk`saved, disk`alive, disk`script, disk`everDurable
      ensures (View(rows), rc) == ProviderState.UnwrapToStaging(old(View(rows)), item, gen, u)
      ensures rc == Success ==> u.Opened? && actualKcv == u.kcv
    {
      actualKcv := [];
      var size := KeySize(item.algorithm);
      if size == 0 { return Unsupported, actualKcv; }
      if u.Rejected? { return u.fault, actualKcv; }
      if |u.key| != size { return WrappedKeyInvalid, actualKcv; }
      if item.kcvPresent && u.kcv != item.kcv { return WrappedKeyInvalid, actualKcv; }
      actualKcv := u.kcv;
      staging := staging[item.purpose := StagedSlot(item, gen, u.key)];
      stagingGeneration := gen;
      rc := SaveState(rows);
    }

    method VerifyStaging(p: Purpose, cipherFault: bool) returns (rc: Code)
      ensures rc == ProviderState.VerifyStaging(Memory(), p, cipherFault)
    {
      if p !in staging { return WrappedKeyInvalid; }
      var s := staging[p];
      var size := KeySize(s.algorithm);
      if size == 0 { return Unsupported; }
      if cipherFault || !Unseals(p, s) { return WrappedKeyInvalid; }
      rc := if |s.sealed.key| == size then Success else WrappedKeyInvalid;
    }

    method AllStagedAt(gen: nat) returns (ok: bool)
      ensures ok == BothStagedAt(Memory(), gen)
    {
      var required := [UplinkAead, DownlinkAead];
      var i := 0;
      while i < |required|
        invariant 0 <= i <= |required|
        invariant forall j :: 0 <= j < i ==> required[j] in staging && staging[required[j]].generation == gen
      {
        if required[i] !in staging || staging[required[i]].generation != gen {
          assert required[i] in REQUIRED;
          return false;
        }
        i := i + 1;
      }
      forall p | p in REQUIRED ensures p in staging && staging[p].generation == gen {
        assert p == required[0] || p == required[1];
      }
      ok := true;
    }

    method ActiveWithStaged() returns (merged: map<Purpose, Slot>)
      requires REQUIRED <= staging.Keys
      ensures merged == active + map p | p in REQUIRED :: staging[p]
    {
      var required := [UplinkAead, DownlinkAead];
      merged := active;
      var i := 0;
      while i < |required|
        invariant 0 <= i <= |required|
        invariant merged.Keys == active.Keys + (set j | 0 <= j < i :: required[j])
        invariant forall j :: 0 <= j < i ==> merged[required[j]] == staging[required[j]]
        invariant forall p :: p in active && p !in REQUIRED ==> merged[p] == active[p]
      {
        assert required[i] in REQUIRED;
        merged := merged[required[i] := staging[required[i]]];
        i := i + 1;
      }
      assert required[0] in merged && required[1] in merged;
      forall p | p in REQUIRED ensures p in merged && merged[p] == staging[p] {
        assert p == required[0] || p == required[1];
      }
    }

    /** Activate the staged pair; when the save fails the active slots, the generation and
        the marker go back to what they were. */
    method CommitBatch(gen: nat, ghost owner: Rid, ghost rows: map<Purpose, LedgerRow>) returns (rc: Code)
      modifies this, disk`saved, disk`alive, disk`script, disk`everDurable, disk`commits
      ensures (View(rows), rc) == ProviderState.CommitBatch(old(View(rows)), gen, owner)
    {
      hide ProviderState.SaveState, MarkerOf;
      var ok := AllStagedAt(gen);
      if !ok { return PartialRollback; }
      if stagingGeneration != gen { return Conflict; }
      ghost var batch := map p | p in REQUIRED :: staging[p];
      var newActive := ActiveWithStaged();
      var oldActive, oldGeneration, oldMarker := active, generation, commitMarker;
      active, generation := newActive, gen;
      commitMarker := ComputeCommitMarker();
      staging, stagingGeneration := map[], 0;
      rc := SaveState(rows);
      if rc != Success {
        active, generation, commitMarker := oldActive, oldGeneration, oldMarker;
      } else {
        disk.commits := disk.commits + [Commit(owner, gen, batch)];
      }
    }

    method RollbackStaging(gen: nat, ghost rows: map<Purpose, LedgerRow>) returns (rc: Code)
      modifies this`staging, this`stagingGeneration, disk`saved, disk`alive, disk`script, disk`everDurable
      ensures (View(rows), rc) == ProviderState.RollbackStaging(old(View(rows)), gen)
    {
      if stagingGeneration != 0 && stagingGeneration != gen { return Conflict; }
      staging, stagingGeneration := map[], 0;
      rc := SaveState(rows);
    }

    method GenerateProof(p: Purpose, version: nat, signed: Option<seq<byte>>) returns (proof: Option<seq<byte>>)
      ensures proof == ProviderState.GenerateProof(Memory(), p, version, signed)
    {
      if p !in active { return None; }
      if active[p].version != version { return None; }
      if signed.None? { return None; }
      proof := if |signed.value| == 64 then signed else None;
    }

    method SaveJournal(e: Entry, ghost rows: map<Purpose, LedgerRow>) returns (rc: Code)
      modifies this`journal, disk`saved, disk`alive, disk`script, disk`everDurable
      ensures (View(rows), rc) == ProviderState.SaveJournal(old(View(rows)), e)
    {
      journal := journal[e.rid := e];
      rc := SaveState(rows);
    }

    method HasTransactionResidue() returns (found: bool)
      ensures found == ProviderState.HasTransactionResidue(Memory())
    {
      if staging != map[] { return true; }
      found := commitMarker != NoMarker;
    }

    /** The journal in the order the underlying map iterates. */
    method ListJournal(order: seq<Rid>) returns (entries: seq<Entry>)
      requires forall r :: r in order ==> r in journal
      ensures |entries| == |order| && forall i :: 0 <= i < |order| ==> entries[i] == journal[order[i]]
    {
      entries := [];
      while |entries| < |order|
        invariant |entries| <= |order|
        invariant forall i :: 0 <= i < |entries| ==> entries[i] == journal[order[i]]
      {
        entries := entries + [journal[order[|entries|]]];
      }
    }
  }
}
