/** The provisioning service as an object that drives the provider and the ledger step by
    step. Every method equals the corresponding state function, so the results about runs
    are results about these methods. */
module ProvisioningService {
  import opened Wrappers
  import opened ProviderState
  import opened Provisioning
  import opened ProvisioningInvariants
  import opened ProvisioningCalls
  import opened ProvisioningRecovery
  import opened ProvisioningRuns
  import opened ProvisioningAnswers
  import opened SoftFileProvider

  class BusinessKeyProvisioningService {
    const provider: SoftFileBusinessKeyProvider
    const ledger: SecureMetadataLedger
    const disk: Disk

    ghost predicate Valid() { provider.disk == disk && ledger.disk == disk }

    ghost function View(): State
      reads provider, provider.disk, ledger
    {
      provider.View(ledger.entries)
    }

    constructor (provider: SoftFileBusinessKeyProvider, ledger: SecureMetadataLedger, disk: Disk)
      requires provider.disk == disk && ledger.disk == disk
      ensures Valid() && this.provider == provider && this.ledger == ledger && this.disk == disk
    {
      this.provider, this.ledger, this.disk := provider, ledger, disk;
    }

    method ValidateStructure(req: Request) returns (rc: Code)
      ensures rc == Provisioning.ValidateStructure(req)
    {
      if |req.requestId| == 0 { return InvalidParameter; }
      if |req.requestId| > 128 { return InvalidParameter; }
      if req.domain != DOMAIN { return Unsupported; }
      if |req.items| != MAX_ITEMS { return Unsupported; }
      var seenPurposes: set<Purpose>, seenKeyIds: set<string> := {}, {};
      var i := 0;
      while i < |req.items|
        invariant 0 <= i <= |req.items|
        invariant seenPurposes == PurposesOf(req.items[..i]) && seenKeyIds == KeyIdsOf(req.items[..i])
        invariant ItemsCode(req.items, i) == ItemsCode(req.items, 0)
      {
        var item := req.items[i];
        rc := ItemCode(item, seenPurposes, seenKeyIds);
        if rc != Success { return; }
        assert req.items[..i + 1] == req.items[..i] + [item];
        seenPurposes, seenKeyIds := seenPurposes + {item.purpose}, seenKeyIds + {item.keyId};
        i := i + 1;
      }
      assert req.items[..i] == req.items;
      if UplinkAead !in seenPurposes { return Unsupported; }
      if DownlinkAead !in seenPurposes { return Unsupported; }
      rc := Success;
    }

    method NextGeneration() returns (g: nat)
      requires Valid()
      ensures g == Provisioning.NextGeneration(View().mem)
    {
      var highest := 0;
      var up := provider.QuerySlot(UplinkAead);
      if highest < up.generation { highest := up.generation; }
      var down := provider.QuerySlot(DownlinkAead);
      if highest < down.generation { highest := down.generation; }
      g := highest + 1;
    }

    method ValidateVersionAndTime(items: seq<Item>, t: Sample) returns (rc: Code)
      requires Valid()
      ensures rc == Provisioning.ValidateVersionAndTime(View().mem, items, t)
    {
      if !t.trusted { return NotReady; }
      var i := 0;
      while i < |items|
        invariant 0 <= i <= |items|
        invariant VersionAndTimeFrom(View().mem, items, t.utc, i) == VersionAndTimeFrom(View().mem, items, t.utc, 0)
      {
        var slot := provider.QuerySlot(items[i].purpose);
        if slot.present && items[i].version <= slot.version { return Conflict; }
        if t.utc < items[i].validFrom || t.utc > items[i].validTo { return WrappedKeyInvalid; }
        i := i + 1;
      }
      rc := Success;
    }

    method UpdateLedger(e: Entry, generation: nat)
      requires Valid()
      modifies ledger, disk`savedRows, disk`alive, disk`script
      ensures View() == Provisioning.UpdateLedger(old(View()), e, generation, 0)
    {
      ghost var start := View();
      var i := 0;
      while i < |e.items|
        invariant 0 <= i <= |e.items|
        invariant Provisioning.UpdateLedger(View(), e, generation, i)
                  == Provisioning.UpdateLedger(start, e, generation, 0)
      {
        var it := e.items[i];
        var row := LedgerRow(it.version, Digest(it.keyId), it.algorithm, it.validFrom, it.validTo,
                             generation, e.rid, e.createdAt, e.committedAt);
        ghost var before := View();
        var rc := ledger.Put(it.purpose, row);
        assert View() == LedgerPut(before, it.purpose, row);
        i := i + 1;
      }
    }

    method BothActive(generation: nat) returns (ok: bool)
      requires Valid()
      ensures ok == BothActiveAt(View().mem, generation)
    {
      var required := [UplinkAead, DownlinkAead];
      var i := 0;
      while i < |required|
        invariant 0 <= i <= |required|
        invariant forall j :: 0 <= j < i ==>
          var slot := ProviderState.QuerySlot(View().mem, required[j]);
          slot.present && slot.state == ActiveKey && slot.generation == generation
      {
        var slot := provider.QuerySlot(required[i]);
        if !(slot.present && slot.state == ActiveKey && slot.generation == generation) {
          assert required[i] in REQUIRED;
          return false;
        }
        i := i + 1;
      }
      forall p | p in REQUIRED
        ensures var slot := ProviderState.QuerySlot(View().mem, p);
                slot.present && slot.state == ActiveKey && slot.generation == generation
      {
        assert p == required[0] || p == required[1];
      }
      ok := true;
    }

    method RecoverEntry(e: Entry, now: int) returns (e1: Entry)
      requires Valid()
      modifies provider, disk, ledger
      ensures (View(), e1) == Provisioning.RecoverEntry(old(View()), e, now)
    {
      var bothActive := BothActive(e.generation);
      if bothActive {
        var items := e.items;
        var i := 0;
        while i < |items|
          invariant 0 <= i <= |items| == |e.items|
          invariant forall j :: 0 <= j < i ==> items[j] == e.items[j].(state := ActiveKey)
          invariant forall j :: i <= j < |items| ==> items[j] == e.items[j]
        {
          items := items[i := items[i].(state := ActiveKey)];
          i := i + 1;
        }
        assert items == AllActive(e.items);
        e1 := e.(phase := Succeeded, committedAt := now, items := items);
        var ignored := provider.SaveJournal(e1, ledger.entries);
        UpdateLedger(e1, e1.generation);
      } else {
        var ignored := provider.RollbackStaging(e.generation, ledger.entries);
        e1 := e.(phase := Failed, lastError := FromCode(PartialRollback));
        ignored := provider.SaveJournal(e1, ledger.entries);
      }
    }

    /** Settle what the start-up finds open; the entries are those listed at the start. */
    method RecoverOnStartup(order: seq<Rid>, clock: seq<int>)
      requires Valid() && |clock| == |order| && forall r :: r in order ==> r in provider.journal
      modifies provider, disk, ledger
      ensures View() == RecoverAll(old(View()), old(provider.journal), order, clock)
    {
      ghost var start, listed := View(), provider.journal;
      var entries := provider.ListJournal(order);
      var i := 0;
      while i < |entries|
        invariant 0 <= i <= |entries| == |order|
        invariant RecoverAll(View(), listed, order[i..], clock[i..]) == RecoverAll(start, listed, order, clock)
      {
        assert order[i..][0] == order[i] && order[i..][1..] == order[i + 1..] && clock[i..][1..] == clock[i + 1..];
        if !Terminal(entries[i].phase) {
          var settled := RecoverEntry(entries[i], clock[i]);
        }
        i := i + 1;
      }
    }

    /** Start-up: read the record and the ledger back, then settle. */
    method Initialize(order: seq<Rid>, clock: seq<int>)
      requires Valid() && disk.alive && |clock| == |order| && forall r :: r in order ==> r in disk.saved.journal
      modifies provider, disk, ledger
      ensures View() == Restart(old(View()), old(disk.script), order, clock)
      ensures old(Inv(View())) && Enumerates(order, old(disk.saved.journal.Keys)) ==>
        Inv(View()) && provider.staging == map[] && provider.active == ActiveAfter(disk.commits)
        && disk.commits == old(disk.commits)
        && forall r :: r in provider.journal ==> Terminal(provider.journal[r].phase)
    {
      ghost var before := View();
      provider.Initialize(ledger.entries);
      ledger.Load();
      assert View() == PowerOn(before, disk.script);
      RecoverOnStartup(order, clock);
      ghost var after := View();
      assert after == Restart(before, before.script, order, clock);
      if Inv(before) && Enumerates(order, before.disk.journal.Keys) {
        StartupConverges(before, before.script, order, clock);
      }
    }

    method NewStatuses(req: Request) returns (items: seq<ItemStatus>)
      requires |req.envelopeDigests| == |req.items|
      ensures items ==
        seq(|req.items|, i requires 0 <= i < |req.items| => NewStatus(req.items[i], req.envelopeDigests[i]))
    {
      items := [];
      while |items| < |req.items|
        invariant |items| <= |req.items|
        invariant forall i :: 0 <= i < |items| ==> items[i] == NewStatus(req.items[i], req.envelopeDigests[i])
      {
        items := items + [NewStatus(req.items[|items|], req.envelopeDigests[|items|])];
      }
    }

    method Suspend(e: Entry, note: Note) returns (o: Outcome)
      requires Valid()
      modifies provider, disk, ledger
      ensures (View(), o) == Provisioning.Suspend(old(View()), e, note)
    {
      var ignored := provider.SaveJournal(e.(phase := OutcomeUnknown, lastError := note), ledger.entries);
      o := Answer(OutcomeUnknownCode, Unknown);
    }

    method Abandon(e: Entry, rc: Code) returns (o: Outcome)
      requires Valid()
      modifies provider, disk, ledger
      ensures (View(), o) == Provisioning.Abandon(old(View()), e, rc)
    {
      var ignored := provider.RollbackStaging(e.generation, ledger.entries);
      ignored := provider.SaveJournal(e.(phase := Failed, lastError := FromCode(rc)), ledger.entries);
      o := Answer(rc, ImportFailed);
    }

    method EndOn(e: Entry, rc: Code) returns (o: Outcome)
      requires Valid()
      modifies provider, disk, ledger
      ensures (View(), o) == Provisioning.EndOn(old(View()), e, rc)
    {
      if IsOutcomeUnknown(rc) { o := Suspend(e, FromCode(rc)); } else { o := Abandon(e, rc); }
    }

    method Stage(e0: Entry, req: Request, env: Env) returns (ended: Option<Outcome>, e: Entry, kcvs: seq<seq<byte>>)
      requires Valid() && Shaped(req, env)
      modifies provider, disk, ledger
      ensures StageFrom(old(View()), e0, req, env, 0) ==
              match ended case Some(o) => Ended(View(), o) case None => Going(View(), e)
      ensures ended.None? ==> |kcvs| == |req.items|
      ensures ended.None? ==> forall i :: 0 <= i < |kcvs| ==> kcvs[i] == ActualKcv(env.unwraps[i])
    {
      hide ProviderState.UnwrapToStaging, ProviderState.SaveJournal, Provisioning.EndOn;
      ghost var start := View();
      e, kcvs, ended := e0, [], None;
      var i := 0;
      while i < |req.items|
        invariant 0 <= i <= |req.items| && |kcvs| == i
        invariant StageFrom(View(), e, req, env, i) == StageFrom(start, e0, req, env, 0)
        invariant forall j :: 0 <= j < i ==> kcvs[j] == ActualKcv(env.unwraps[j])
      {
        var rc, kcv := provider.UnwrapToStaging(req.items[i], e.generation, env.unwraps[i], ledger.entries);
        if rc != Success {
          var o := EndOn(e, rc);
          return Some(o), e, kcvs;
        }
        if req.items[i].purpose == UplinkAead { e := e.(phase := UplinkStaged); }
        var ignored := provider.SaveJournal(e, ledger.entries);
        kcvs := kcvs + [kcv];
        i := i + 1;
      }
    }

    method Verify(req: Request, env: Env) returns (rc: Code)
      requires Valid() && Shaped(req, env)
      ensures rc == VerifyFrom(View().mem, req, env, 0)
    {
      var i := 0;
      while i < |req.items|
        invariant 0 <= i <= |req.items|
        invariant VerifyFrom(View().mem, req, env, i) == VerifyFrom(View().mem, req, env, 0)
      {
        rc := provider.VerifyStaging(req.items[i].purpose, env.cipherFaults[i]);
        if rc != Success { return; }
        i := i + 1;
      }
      rc := Success;
    }

    method Finish(e: Entry, env: Env, kcvs: seq<seq<byte>>, now: int) returns (o: Outcome)
      requires Valid() && |e.items| == |env.proofs| == |env.unwraps| == |kcvs|
      requires forall i :: 0 <= i < |kcvs| ==> kcvs[i] == ActualKcv(env.unwraps[i])
      modifies provider, disk, ledger
      ensures (View(), o) == Provisioning.Finish(old(View()), e, env, now)
    {
      hide ProviderState.SaveJournal, Provisioning.UpdateLedger;
      ghost var m := View().mem;
      var at := if env.commit.trusted then env.commit.utc else now;
      var items, proofFailed := e.items, false;
      var i := 0;
      while i < |items|
        invariant 0 <= i <= |items| == |e.items| && View() == old(View())
        invariant forall j :: 0 <= j < i ==> items[j] == FinishStatus(m, e.items[j], env, j)
        invariant forall j :: i <= j < |items| ==> items[j] == e.items[j]
        invariant !proofFailed <==> forall j :: 0 <= j < i ==>
          GenerateProof(m, e.items[j].purpose, e.items[j].version, env.proofs[j]).Some?
      {
        var st := items[i].(state := ActiveKey, kcv := kcvs[i], kcvPresent := true, recipientDigest := env.certDigest);
        var proof := provider.GenerateProof(st.purpose, st.version, env.proofs[i]);
        if proof.Some? { st := st.(proof := proof.value); } else { proofFailed := true; }
        items := items[i := st];
        i := i + 1;
      }
      assert items == Finished(m, e, env, now).items;
      var e1 := e.(phase := Succeeded, committedAt := at, items := items);
      if proofFailed {
        o := Suspend(e1, AttestationFailed);
      } else {
        var ignored := provider.SaveJournal(e1, ledger.entries);
        UpdateLedger(e1, e1.generation);
        o := CommittedResult(e1);
      }
    }

    method RunPipeline(req: Request, env: Env, generation: nat, now: int) returns (o: Outcome)
      requires Valid() && Shaped(req, env)
      modifies provider, disk, ledger
      ensures (View(), o) == Provisioning.RunPipeline(old(View()), req, env, generation, now)
    {
      var items := NewStatuses(req);
      var e0 := Entry(RidOf(req.requestId), req.digest, Processing, generation, items, now, 0, NoNote);
      var ignored := provider.SaveJournal(e0, ledger.entries);
      var ended, e, kcvs := Stage(e0, req, env);
      if ended.Some? { return ended.value; }
      e := e.(phase := BothStaged);
      ignored := provider.SaveJournal(e, ledger.entries);
      var rc := Verify(req, env);
      if rc != Success {
        o := Abandon(e, rc);
        return;
      }
      e := e.(phase := Committing);
      ignored := provider.SaveJournal(e, ledger.entries);
      rc := provider.CommitBatch(generation, e.rid, ledger.entries);
      if rc != Success {
        o := EndOn(e, rc);
      } else {
        o := Finish(e, env, kcvs, now);
      }
    }

    method Resume(existing: Entry, req: Request, env: Env) returns (o: Outcome)
      requires Valid()
      modifies provider, disk, ledger
      ensures (View(), o) == Provisioning.Resume(old(View()), existing, req, env)
    {
      if existing.requestDigest != "" && existing.requestDigest != req.digest { return Answer(Conflict, ImportFailed); }
      if existing.phase == Succeeded { return CommittedResult(existing); }
      if existing.phase == Failed { return Outcome(ImportUnknown, ImportFailed, existing.items, 0); }
      var settled := RecoverEntry(existing, NowMs(env.recovery));
      if settled.phase == Succeeded { return CommittedResult(settled); }
      o := Outcome(PartialRollback, ImportFailed, settled.items, 0);
    }

    method CheckEnvelope(req: Request, env: Env) returns (rc: Code)
      ensures rc == PreCheck(req, env)
    {
      if !env.importReady { return NotReady; }
      rc := ValidateStructure(req);
      if rc != Success { return; }
      if !env.bindingReady { return NotReady; }
      rc := env.envelopeCheck;
    }

    method Import(req: Request, env: Env) returns (o: Outcome)
      requires Valid() && Shaped(req, env)
      modifies provider, disk, ledger
      ensures (View(), o) == Provisioning.Import(old(View()), req, env)
      ensures old(Inv(View())) ==> Inv(View()) && Effect(old(View()), View(), RidOf(req.requestId), o)
      ensures PreCheck(req, env) == Success ==> RefusesOtherContent(old(View()), View(), req, o)
    {
      ghost var before := View();
      OtherContentRefused(before, req, env);
      o := ImportSteps(req, env);
      if Inv(before) { ImportEffect(before, req, env); }
    }

    method ImportSteps(req: Request, env: Env) returns (o: Outcome)
      requires Valid() && Shaped(req, env)
      modifies provider, disk, ledger
      ensures (View(), o) == Provisioning.Import(old(View()), req, env)
    {
      var rc := CheckEnvelope(req, env);
      if rc != Success { return Answer(rc, ImportFailed); }
      var rid := RidOf(req.requestId);
      if rid in provider.journal {
        o := Resume(provider.journal[rid], req, env);
        return;
      }
      rc := ValidateVersionAndTime(req.items, env.validation);
      if rc != Success { return Answer(rc, ImportFailed); }
      var generation := NextGeneration();
      o := RunPipeline(req, env, generation, NowMs(env.start));
    }

    method FindResidue(rid: Rid) returns (found: bool)
      requires Valid()
      ensures found == HasResidue(View(), rid)
    {
      found := provider.HasTransactionResidue();
      if found { return; }
      var required := [UplinkAead, DownlinkAead];
      var i := 0;
      while i < |required|
        invariant 0 <= i <= |required|
        invariant forall j :: 0 <= j < i ==> !(required[j] in ledger.entries && ledger.entries[required[j]].rid == rid)
      {
        if required[i] in ledger.entries && ledger.entries[required[i]].rid == rid {
          assert required[i] in REQUIRED;
          return true;
        }
        i := i + 1;
      }
      forall p | p in REQUIRED ensures !(p in ledger.entries && ledger.entries[p].rid == rid) {
        assert p == required[0] || p == required[1];
      }
    }

    /** The admission checks of a new KL1 operation; the lease is checked again at the end. */
    method AdmitKl1(req: Request, ctx: Kl1Context, env: Env) returns (rc: Code)
      requires Valid()
      ensures rc == Kl1Admission(View(), req, ctx, env)
    {
      rc := LeaseCode(env.admission, ctx, env.epoch);
      if rc != Success { return; }
      var upper := UpperNow(env.admission).value;
      var i := 0;
      while i < |req.items|
        invariant 0 <= i <= |req.items|
        invariant forall j :: 0 <= j < i ==> req.items[j].validFrom <= upper && req.items[j].validTo >= ctx.expireAt
      {
        if req.items[i].validFrom > upper || req.items[i].validTo < ctx.expireAt { return WrappedKeyInvalid; }
        i := i + 1;
      }
      if env.certValidFrom > upper || env.certValidTo < ctx.expireAt { return WrappedKeyInvalid; }
      rc := ValidateVersionAndTime(req.items, env.validation);
      if rc != Success { return; }
      rc := LeaseCode(env.lastCheck, ctx, env.epoch);
    }

    method ImportKl1(req: Request, ctx: Kl1Context, env: Env) returns (o: Outcome)
      requires Valid() && Shaped(req, env)
      modifies provider, disk, ledger
      ensures (View(), o) == Provisioning.ImportKl1(old(View()), req, ctx, env)
      ensures old(Inv(View())) ==> Inv(View()) && Effect(old(View()), View(), RidOf(req.requestId), o)
      ensures Kl1PreCheck(req, ctx, env) == Success ==> RefusesOtherContent(old(View()), View(), req, o)
    {
      ghost var before := View();
      Kl1OtherContentRefused(before, req, ctx, env);
      o := ImportKl1Steps(req, ctx, env);
      if Inv(before) { ImportKl1Effect(before, req, ctx, env); }
    }

    method ImportKl1Steps(req: Request, ctx: Kl1Context, env: Env) returns (o: Outcome)
      requires Valid() && Shaped(req, env)
      modifies provider, disk, ledger
      ensures (View(), o) == Provisioning.ImportKl1(old(View()), req, ctx, env)
    {
      if !env.importReady || env.epoch == 0 { return Answer(NotReady, ImportFailed); }
      if !ctx.profileKnown || ctx.epoch == 0 { return Answer(NotReady, ImportFailed); }
      var rc := CheckEnvelope(req, env);
      if rc != Success { return Answer(rc, ImportFailed); }
      var rid := RidOf(req.requestId);
      if rid in provider.journal {
        o := Resume(provider.journal[rid], req, env);
        return;
      }
      var residue := FindResidue(rid);
      if residue { return Answer(ImportUnknown, Unknown); }
      rc := AdmitKl1(req, ctx, env);
      if rc != Success { return Answer(rc, ImportFailed); }
      var generation := NextGeneration();
      o := RunPipeline(req, env, generation, NowMs(env.start));
    }

    method QueryResult(requestId: string) returns (o: Outcome)
      requires Valid()
      ensures o == Provisioning.QueryResult(View(), requestId)
    {
      if |requestId| == 0 || |requestId| > 128 { return Answer(InvalidParameter, Unknown); }
      var rid := RidOf(requestId);
      if rid in provider.journal {
        var e := provider.journal[rid];
        if e.phase == Succeeded { return CommittedResult(e); }
        return Outcome(Success, StateOfPhase(e.phase), e.items, 0);
      }
      var residue := FindResidue(rid);
      o := if residue then Answer(Success, Unknown) else Answer(Success, NotFound);
    }
  }

  lemma StartupConverges(s: State, script: seq<SaveOutcome>, rids: seq<Rid>, clock: seq<int>)
    requires Inv(s) && |clock| == |rids| && Enumerates(rids, s.disk.journal.Keys)
    ensures var t := Restart(s, script, rids, clock);
            Inv(t) && t.mem.staging == map[] && t.mem.active == ActiveAfter(t.commits) && t.commits == s.commits
            && forall r :: r in t.mem.journal ==> Terminal(t.mem.journal[r].phase)
  {
    hide Inv, Restart;
    RestartSettles(s, script, rids, clock);
  }
}
