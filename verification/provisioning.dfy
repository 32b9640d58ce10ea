/** What one call of the provisioning service does to the provider's state: the journalled
    import pipeline, recovery, both import entry points and the result query. Everything the
    service reads from outside during a call (security module, clock, device binding) is a
    field of `Env`. */
module Provisioning {
  import opened Wrappers
  import opened ProviderState

  const DOMAIN := "V2C_COMM"
  const SUITE := "ECDH_ES_P256_HKDF_SHA256_AES256GCM"
  const ALGORITHM := "AES-256"
  const MAX_ITEMS := 2
  const MAX_WRAPPED := 4096
  const MAX_PARAMETERS := 2048
  const MAX_VERSION := 0x7fff_ffff_ffff_ffff

  datatype Request = Request(
    requestId: string, domain: string, items: seq<Item>, envelopeDigests: seq<seq<byte>>, digest: string)

  /** A trusted-time sample as the service reads it, in milliseconds. */
  datatype Sample = Sample(trusted: bool, utc: int, uncertainty: int, freshness: int)

  datatype Env = Env(
    importReady: bool, bindingReady: bool, envelopeCheck: Code, certDigest: seq<byte>,
    certValidFrom: int, certValidTo: int, epoch: nat,
    unwraps: seq<Unwrap>, cipherFaults: seq<bool>, proofs: seq<Option<seq<byte>>>,
    admission: Sample, validation: Sample, lastCheck: Sample, start: Sample, commit: Sample,
    recovery: Sample)

  datatype Kl1Context = Kl1Context(expireAt: int, epoch: nat, profileKnown: bool)

  datatype ImportState = Requested | Staged | Committed | ImportFailed | Unknown | NotFound

  /** What the caller gets back. */
  datatype Outcome = Outcome(code: Code, state: ImportState, items: seq<ItemStatus>, committedAt: int)

  function Answer(code: Code, state: ImportState): Outcome { Outcome(code, state, [], 0) }

  function RidOf(requestId: string): Rid { Digest(requestId) }

  function NowMs(t: Sample): int { if t.trusted then t.utc else 0 }

  // ---- validation ----

  function ItemCode(item: Item, seenPurposes: set<Purpose>, seenKeyIds: set<string>): Code {
    if item.purpose !in REQUIRED then Unsupported
    else if item.purpose in seenPurposes then Unsupported
    else if item.keyId == "" then WrappedKeyInvalid
    else if item.keyId in seenKeyIds then WrappedKeyInvalid
    else if item.algorithm != ALGORITHM then Unsupported
    else if item.suite != SUITE then Unsupported
    else if !item.formatV1 then Unsupported
    else if item.version == 0 || item.version > MAX_VERSION then WrappedKeyInvalid
    else if item.validFrom <= 0 || item.validTo <= item.validFrom then WrappedKeyInvalid
    else if item.wrappedSize == 0 || item.wrappedSize > MAX_WRAPPED then WrappedKeyInvalid
    else if item.parametersSize == 0 || item.parametersSize > MAX_PARAMETERS then WrappedKeyInvalid
    else if item.digestSize != 32 then WrappedKeyInvalid
    else if !item.kcvPresent then WrappedKeyInvalid
    else Success
  }

  function PurposesOf(items: seq<Item>): set<Purpose> { set it | it in items :: it.purpose }

  function KeyIdsOf(items: seq<Item>): set<string> { set it | it in items :: it.keyId }

  /** The first failing item, scanning from item `i`. */
  function ItemsCode(items: seq<Item>, i: nat): Code
    requires i <= |items|
    decreases |items| - i
  {
    if i == |items| then Success
    else
      var rc := ItemCode(items[i], PurposesOf(items[..i]), KeyIdsOf(items[..i]));
      if rc != Success then rc else ItemsCode(items, i + 1)
  }

  function ValidateStructure(req: Request): Code {
    if |req.requestId| == 0 || |req.requestId| > 128 then InvalidParameter
    else if req.domain != DOMAIN then Unsupported
    else if |req.items| != MAX_ITEMS then Unsupported
    else if ItemsCode(req.items, 0) != Success then ItemsCode(req.items, 0)
    else if !(REQUIRED <= PurposesOf(req.items)) then Unsupported
    else Success
  }

  function VersionAndTimeFrom(m: Image, items: seq<Item>, now: int, i: nat): Code
    requires i <= |items|
    decreases |items| - i
  {
    if i == |items| then Success
    else
      var it := items[i];
      var slot := QuerySlot(m, it.purpose);
      if slot.present && it.version <= slot.version then Conflict
      else if now < it.validFrom || now > it.validTo then WrappedKeyInvalid
      else VersionAndTimeFrom(m, items, now, i + 1)
  }

  function ValidateVersionAndTime(m: Image, items: seq<Item>, t: Sample): Code {
    if !t.trusted then NotReady else VersionAndTimeFrom(m, items, t.utc, 0)
  }

  function NextGeneration(m: Image): nat {
    var up := QuerySlot(m, UplinkAead).generation;
    var down := QuerySlot(m, DownlinkAead).generation;
    (if up < down then down else up) + 1
  }

  // ---- the ledger ----

  function UpdateLedger(s: State, e: Entry, generation: nat, i: nat): State
    requires i <= |e.items|
    decreases |e.items| - i
  {
    if i == |e.items| then s
    else
      var it := e.items[i];
      var row := LedgerRow(it.version, Digest(it.keyId), it.algorithm, it.validFrom, it.validTo,
                           generation, e.rid, e.createdAt, e.committedAt);
      UpdateLedger(LedgerPut(s, it.purpose, row), e, generation, i + 1)
  }

  // ---- recovery ----

  predicate BothActiveAt(m: Image, generation: nat) {
    forall p :: p in REQUIRED ==>
      var slot := QuerySlot(m, p); slot.present && slot.state == ActiveKey && slot.generation == generation
  }

  function AllActive(items: seq<ItemStatus>): (r: seq<ItemStatus>)
    ensures |r| == |items|
  {
    seq(|items|, i requires 0 <= i < |items| => items[i].(state := ActiveKey))
  }

  function RecoverEntry(s: State, e: Entry, now: int): (r: (State, Entry)) {
    if BothActiveAt(s.mem, e.generation) then
      var e1 := e.(phase := Succeeded, committedAt := now, items := AllActive(e.items));
      (UpdateLedger(SaveJournal(s, e1).0, e1, e.generation, 0), e1)
    else
      var e1 := e.(phase := Failed, lastError := FromCode(PartialRollback));
      (SaveJournal(RollbackStaging(s, e.generation).0, e1).0, e1)
  }

  /** Settle, in the order of `rids`, every entry a start-up finds unfinished; `clock` gives
      the reading each of them sees. */
  function RecoverAll(s: State, listed: map<Rid, Entry>, rids: seq<Rid>, clock: seq<int>): State
    requires |clock| == |rids|
    requires forall r :: r in rids ==> r in listed
    decreases |rids|
  {
    if rids == [] then s
    else
      var e := listed[rids[0]];
      var s1 := if Terminal(e.phase) then s else RecoverEntry(s, e, clock[0]).0;
      RecoverAll(s1, listed, rids[1..], clock[1..])
  }

  /** Power on after a power loss or a clean stop: a fresh process reads the disk. */
  function PowerOn(s: State, script: seq<SaveOutcome>): State {
    s.(mem := Load(s.disk), ledger := s.ledgerDisk, alive := true, script := script)
  }

  function Restart(s: State, script: seq<SaveOutcome>, rids: seq<Rid>, clock: seq<int>): State
    requires |clock| == |rids|
    requires forall r :: r in rids ==> r in s.disk.journal
  {
    var s1 := PowerOn(s, script);
    RecoverAll(s1, s1.mem.journal, rids, clock)
  }

  // ---- the pipeline ----

  function NewStatus(item: Item, envelopeDigest: seq<byte>): ItemStatus {
    ItemStatus(item.purpose, item.version, StagedKey, item.keyId, item.algorithm, item.validFrom,
               item.validTo, envelopeDigest, item.kcv, item.kcvPresent, [], [])
  }

  predicate Shaped(req: Request, env: Env) {
    |req.envelopeDigests| == |req.items| == |env.unwraps| == |env.cipherFaults| == |env.proofs|
  }

  function NewEntry(req: Request, generation: nat, now: int): Entry
    requires |req.envelopeDigests| == |req.items|
  {
    Entry(RidOf(req.requestId), req.digest, Processing, generation,
          seq(|req.items|, i requires 0 <= i < |req.items| => NewStatus(req.items[i], req.envelopeDigests[i])),
          now, 0, NoNote)
  }

  /** The request is left for a later reconciliation. */
  function Suspend(s: State, e: Entry, note: Note): (r: (State, Outcome)) {
    (SaveJournal(s, e.(phase := OutcomeUnknown, lastError := note)).0, Answer(OutcomeUnknownCode, Unknown))
  }

  /** The request is rolled back and closed. */
  function Abandon(s: State, e: Entry, rc: Code): (r: (State, Outcome)) {
    (SaveJournal(RollbackStaging(s, e.generation).0, e.(phase := Failed, lastError := FromCode(rc))).0,
     Answer(rc, ImportFailed))
  }

  predicate IsOutcomeUnknown(rc: Code) {
    rc == InternalError || rc == StorageWriteFailed || rc == NotInitialized
  }

  /** How a phase that fails ends. */
  function EndOn(s: State, e: Entry, rc: Code): (r: (State, Outcome)) {
    if IsOutcomeUnknown(rc) then Suspend(s, e, FromCode(rc)) else Abandon(s, e, rc)
  }

  datatype Progress = Going(s: State, e: Entry) | Ended(s: State, o: Outcome)

  /** Unwrap the items from `i` on into the staging slots, journalling each. */
  function StageFrom(s: State, e: Entry, req: Request, env: Env, i: nat): (r: Progress)
    requires Shaped(req, env) && i <= |req.items|
    ensures r.Going? ==> r.e == e.(phase := r.e.phase)
    decreases |req.items| - i
  {
    if i == |req.items| then Going(s, e)
    else
      var (s1, rc) := UnwrapToStaging(s, req.items[i], e.generation, env.unwraps[i]);
      if rc != Success then
        var (s2, o) := EndOn(s1, e, rc); Ended(s2, o)
      else
        var e1 := if req.items[i].purpose == UplinkAead then e.(phase := UplinkStaged) else e;
        StageFrom(SaveJournal(s1, e1).0, e1, req, env, i + 1)
  }

  function VerifyFrom(m: Image, req: Request, env: Env, i: nat): Code
    requires Shaped(req, env) && i <= |req.items|
    decreases |req.items| - i
  {
    if i == |req.items| then Success
    else
      var rc := VerifyStaging(m, req.items[i].purpose, env.cipherFaults[i]);
      if rc != Success then rc else VerifyFrom(m, req, env, i + 1)
  }

  function ActualKcv(u: Unwrap): seq<byte> { if u.Opened? then u.kcv else [] }

  function FinishStatus(m: Image, st: ItemStatus, env: Env, i: nat): ItemStatus
    requires i < |env.unwraps| == |env.proofs|
  {
    var proof := GenerateProof(m, st.purpose, st.version, env.proofs[i]);
    st.(state := ActiveKey, kcv := ActualKcv(env.unwraps[i]), kcvPresent := true,
        recipientDigest := env.certDigest, proof := if proof.Some? then proof.value else st.proof)
  }

  predicate ProofsMade(m: Image, e: Entry, env: Env)
    requires |e.items| == |env.proofs|
  {
    forall i :: 0 <= i < |e.items| ==> GenerateProof(m, e.items[i].purpose, e.items[i].version, env.proofs[i]).Some?
  }

  function CommittedResult(e: Entry): Outcome { Outcome(Success, Committed, e.items, e.committedAt) }

  /** After the commit: attach check values and proofs, close the entry, update the ledger. */
  function Finish(s: State, e: Entry, env: Env, now: int): (r: (State, Outcome))
    requires |e.items| == |env.proofs| == |env.unwraps|
  {
    var at := if env.commit.trusted then env.commit.utc else now;
    var e1 := e.(phase := Succeeded, committedAt := at,
                 items := seq(|e.items|, i requires 0 <= i < |e.items| => FinishStatus(s.mem, e.items[i], env, i)));
    if !ProofsMade(s.mem, e, env) then Suspend(s, e1, AttestationFailed)
    else (UpdateLedger(SaveJournal(s, e1).0, e1, e1.generation, 0), CommittedResult(e1))
  }

  function CommitPhase(s: State, e: Entry, env: Env, now: int): (r: (State, Outcome))
    requires |e.items| == |env.proofs| == |env.unwraps|
  {
    var e1 := e.(phase := Committing);
    var (s1, rc) := CommitBatch(SaveJournal(s, e1).0, e.generation, e.rid);
    if rc != Success then EndOn(s1, e1, rc) else Finish(s1, e1, env, now)
  }

  function RunPipeline(s: State, req: Request, env: Env, generation: nat, now: int): (r: (State, Outcome))
    requires Shaped(req, env)
  {
    var e := NewEntry(req, generation, now);
    match StageFrom(SaveJournal(s, e).0, e, req, env, 0)
    case Ended(s1, o) => (s1, o)
    case Going(s1, e1) =>
      var e2 := e1.(phase := BothStaged);
      var s2 := SaveJournal(s1, e2).0;
      var rc := VerifyFrom(s2.mem, req, env, 0);
      if rc != Success then Abandon(s2, e2, rc)
      else CommitPhase(s2, e2, env, now)
  }

  // ---- the two import calls ----

  predicate Conflicts(existing: Entry, req: Request) {
    existing.requestDigest != "" && existing.requestDigest != req.digest
  }

  /** A request id the journal already knows: the recorded facts decide, nothing new starts. */
  function Resume(s: State, existing: Entry, req: Request, env: Env): (r: (State, Outcome)) {
    if Conflicts(existing, req) then (s, Answer(Conflict, ImportFailed))
    else if existing.phase == Succeeded then (s, CommittedResult(existing))
    else if existing.phase == Failed then (s, Outcome(ImportUnknown, ImportFailed, existing.items, 0))
    else
      var (s1, e1) := RecoverEntry(s, existing, NowMs(env.recovery));
      if e1.phase == Succeeded then (s1, CommittedResult(e1))
      else (s1, Outcome(PartialRollback, ImportFailed, e1.items, 0))
  }

  /** Checks shared by both import calls, before the journal is consulted. */
  function PreCheck(req: Request, env: Env): Code {
    if !env.importReady then NotReady
    else if ValidateStructure(req) != Success then ValidateStructure(req)
    else if !env.bindingReady then NotReady
    else env.envelopeCheck
  }

  function Import(s: State, req: Request, env: Env): (r: (State, Outcome))
    requires Shaped(req, env)
  {
    var rid := RidOf(req.requestId);
    var pre := PreCheck(req, env);
    if pre != Success then (s, Answer(pre, ImportFailed))
    else if rid in s.mem.journal then Resume(s, s.mem.journal[rid], req, env)
    else
      var rc := ValidateVersionAndTime(s.mem, req.items, env.validation);
      if rc != Success then (s, Answer(rc, ImportFailed))
      else RunPipeline(s, req, env, NextGeneration(s.mem), NowMs(env.start))
  }

  predicate HasResidue(s: State, rid: Rid) {
    HasTransactionResidue(s.mem) || exists p :: p in REQUIRED && p in s.ledger && s.ledger[p].rid == rid
  }

  /** The upper end of the trusted-time interval, when the sample is good enough to admit. */
  function UpperNow(t: Sample): Option<int> {
    if !t.trusted || t.uncertainty > 1000 || t.freshness > 300000 then None
    else Some(t.utc + t.uncertainty)
  }

  function LeaseCode(t: Sample, ctx: Kl1Context, epoch: nat): Code {
    if UpperNow(t).None? then NotReady
    else if ctx.epoch != epoch then EpochMismatch
    else if UpperNow(t).value >= ctx.expireAt then AdmissionRejected
    else Success
  }

  predicate ItemsCover(items: seq<Item>, upper: int, expireAt: int) {
    forall it :: it in items ==> it.validFrom <= upper && it.validTo >= expireAt
  }

  /** Every admission check of a new KL1 operation, in order. */
  function Kl1Admission(s: State, req: Request, ctx: Kl1Context, env: Env): Code {
    var first := LeaseCode(env.admission, ctx, env.epoch);
    if first != Success then first
    else
      var upper := UpperNow(env.admission).value;
      if !ItemsCover(req.items, upper, ctx.expireAt) then WrappedKeyInvalid
      else if env.certValidFrom > upper || env.certValidTo < ctx.expireAt then WrappedKeyInvalid
      else
        var rc := ValidateVersionAndTime(s.mem, req.items, env.validation);
        if rc != Success then rc else LeaseCode(env.lastCheck, ctx, env.epoch)
  }

  function Kl1PreCheck(req: Request, ctx: Kl1Context, env: Env): Code {
    if !env.importReady || env.epoch == 0 then NotReady
    else if !ctx.profileKnown || ctx.epoch == 0 then NotReady
    else PreCheck(req, env)
  }

  function ImportKl1(s: State, req: Request, ctx: Kl1Context, env: Env): (r: (State, Outcome))
    requires Shaped(req, env)
  {
    var rid := RidOf(req.requestId);
    var pre := Kl1PreCheck(req, ctx, env);
    if pre != Success then (s, Answer(pre, ImportFailed))
    else if rid in s.mem.journal then Resume(s, s.mem.journal[rid], req, env)
    else if HasResidue(s, rid) then (s, Answer(ImportUnknown, Unknown))
    else
      var rc := Kl1Admission(s, req, ctx, env);
      if rc != Success then (s, Answer(rc, ImportFailed))
      else RunPipeline(s, req, env, NextGeneration(s.mem), NowMs(env.start))
  }

  // ---- the result query ----

  function StateOfPhase(p: Phase): ImportState {
    match p
    case Validated | Processing => Requested
    case UplinkStaged | BothStaged | Committing => Staged
    case Succeeded => Committed
    case Failed => ImportFailed
    case OutcomeUnknown => Unknown
  }

  function QueryResult(s: State, requestId: string): Outcome {
    if |requestId| == 0 || |requestId| > 128 then Answer(InvalidParameter, Unknown)
    else
      var rid := RidOf(requestId);
      if rid in s.mem.journal then
        var e := s.mem.journal[rid];
        if e.phase == Succeeded then CommittedResult(e)
        else Outcome(Success, StateOfPhase(e.phase), e.items, 0)
      else if HasResidue(s, rid) then Answer(Success, Unknown)
      else Answer(Success, NotFound)
  }
}
