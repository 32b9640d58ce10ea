/** The state the soft-file business-key provider keeps in memory and saves as one
    record, and what each provider operation does to it.

    A save consults a script of outcomes: the record is replaced, the write is refused,
    or the power goes just before or just after the write. After a power loss `alive` is
    false, nothing reaches the disk any more and the memory is worthless: it is dropped by
    the next restart. A call whose end state is not alive never returned to its caller. */
module ProviderState {
  import opened Wrappers

  datatype Code =
    | Success
    | InvalidParameter
    | NotInitialized
    | InternalError
    | StorageWriteFailed
    | Unsupported
    | WrappedKeyInvalid
    | Conflict
    | ImportUnknown
    | NotReady
    | PartialRollback
    | OutcomeUnknownCode
    | AdmissionRejected
    | EpochMismatch

  /** The codes the provider answers with when it cannot unwrap. */
  type Fault = c: Code | c in {NotReady, WrappedKeyInvalid, Unsupported, InternalError} witness NotReady

  datatype Purpose = UplinkAead | DownlinkAead | OtherPurpose(name: string)

  const REQUIRED: set<Purpose> := {UplinkAead, DownlinkAead}

  /** An ideal (collision-free) digest: the digest is represented by what was hashed. */
  datatype Digest = Digest(of: string)

  type Rid = Digest

  /** An ideal AES-GCM box for a slot key: it opens under exactly the associated data it
      was made with. */
  datatype Sealed = Sealed(purpose: Purpose, version: nat, generation: nat, key: seq<byte>)

  datatype Slot = Slot(version: nat, keyIdDigest: Digest, algorithm: string,
                       validFrom: int, validTo: int, generation: nat, sealed: Sealed)

  datatype KeyState = Missing | StagedKey | ActiveKey | InvalidKey

  datatype Phase =
    | Validated | Processing | UplinkStaged | BothStaged | Committing
    | Succeeded | Failed | OutcomeUnknown

  predicate Terminal(p: Phase) { p == Succeeded || p == Failed }

  datatype ItemStatus = ItemStatus(
    purpose: Purpose, version: nat, state: KeyState, keyId: string, algorithm: string,
    validFrom: int, validTo: int, envelopeDigest: seq<byte>, kcv: seq<byte>, kcvPresent: bool,
    proof: seq<byte>, recipientDigest: seq<byte>)

  datatype Note = NoNote | FromCode(code: Code) | AttestationFailed

  datatype Entry = Entry(
    rid: Rid, requestDigest: string, phase: Phase, generation: nat, items: seq<ItemStatus>,
    createdAt: int, committedAt: int, lastError: Note)

  /** An ideal HMAC: the tag is represented by the message it authenticates. */
  datatype Marker = NoMarker | Mac(generation: nat, slots: map<Purpose, (nat, Digest, string, nat)>)

  /** Everything `save_state` writes; the memory of a running provider has the same shape. */
  datatype Image = Image(
    active: map<Purpose, Slot>, staging: map<Purpose, Slot>, stagingGeneration: nat,
    generation: nat, marker: Marker, journal: map<Rid, Entry>)

  const EMPTY_IMAGE := Image(map[], map[], 0, 0, NoMarker, map[])

  datatype LedgerRow = LedgerRow(version: nat, keyIdDigest: Digest, algorithm: string,
                                 validFrom: int, validTo: int, generation: nat, rid: Rid,
                                 createdAt: int, committedAt: int)

  datatype SaveOutcome = Saved | Refused | CrashBefore | CrashAfter

  /** One batch that became active: whose it was, its generation and its slots. */
  datatype Commit = Commit(rid: Rid, generation: nat, slots: map<Purpose, Slot>)

  /** `commits` and `everDurable` are history: the commits that reached the disk, in order,
      and every request that some saved record has ever had a journal entry for. */
  datatype State = State(
    mem: Image, disk: Image, ledger: map<Purpose, LedgerRow>, ledgerDisk: map<Purpose, LedgerRow>,
    alive: bool, script: seq<SaveOutcome>, commits: seq<Commit>, everDurable: set<Rid>)

  // ---- the store ----

  function NextOutcome(alive: bool, script: seq<SaveOutcome>): SaveOutcome {
    if !alive then Refused else if script == [] then Saved else script[0]
  }

  predicate Lands(o: SaveOutcome) { o.Saved? || o.CrashAfter? }

  predicate LosesPower(o: SaveOutcome) { o.CrashBefore? || o.CrashAfter? }

  function ScriptTail(alive: bool, script: seq<SaveOutcome>): seq<SaveOutcome> {
    if alive && script != [] then script[1..] else script
  }

  /** Replace the whole saved record, or leave it as it was. */
  function SaveState(s: State): (r: (State, Code)) {
    var o := NextOutcome(s.alive, s.script);
    var s1 := s.(alive := s.alive && !LosesPower(o), script := ScriptTail(s.alive, s.script));
    if Lands(o)
    then (s1.(disk := s.mem, everDurable := s.everDurable + s.mem.journal.Keys), Success)
    else (s1, StorageWriteFailed)
  }

  // ---- slots ----

  function KeySize(algorithm: string): nat {
    if algorithm == "AES-256" || algorithm == "AES-256-GCM" then 32
    else if algorithm == "AES-128-GCM" then 16
    else 0
  }

  predicate Unseals(p: Purpose, s: Slot) {
    s.sealed.purpose == p && s.sealed.version == s.version && s.sealed.generation == s.generation
  }

  datatype SlotInfo = SlotInfo(present: bool, state: KeyState, version: nat, generation: nat)

  function QuerySlot(m: Image, p: Purpose): SlotInfo {
    if p !in m.active then SlotInfo(false, Missing, 0, 0)
    else
      var s := m.active[p];
      SlotInfo(true, if Unseals(p, s) then ActiveKey else InvalidKey, s.version, s.generation)
  }

  function MarkerOf(generation: nat, active: map<Purpose, Slot>): Marker {
    Mac(generation, map p | p in active ::
      (active[p].version, active[p].keyIdDigest, active[p].algorithm, active[p].generation))
  }

  // ---- unwrap, verify, commit, roll back ----

  datatype Item = Item(
    purpose: Purpose, keyId: string, version: nat, algorithm: string, suite: string, formatV1: bool,
    wrappedSize: nat, parametersSize: nat, digestSize: nat, validFrom: int, validTo: int,
    kcv: seq<byte>, kcvPresent: bool)

  /** What the security module made of one wrapped key: the key with its check value, or the
      code an earlier check, the unwrap or the slot encryption failed with. */
  datatype Unwrap = Opened(key: seq<byte>, kcv: seq<byte>) | Rejected(fault: Fault)

  function StagedSlot(item: Item, generation: nat, key: seq<byte>): Slot
  {
    Slot(item.version, Digest(item.keyId), item.algorithm, item.validFrom, item.validTo, generation,
         Sealed(item.purpose, item.version, generation, key))
  }

  /** The code of an unwrap before anything is staged. */
  function UnwrapCode(item: Item, u: Unwrap): Code {
    if KeySize(item.algorithm) == 0 then Unsupported
    else match u
      case Rejected(rc) => rc
      case Opened(key, kcv) =>
        if |key| != KeySize(item.algorithm) then WrappedKeyInvalid
        else if item.kcvPresent && kcv != item.kcv then WrappedKeyInvalid
        else Success
  }

  function UnwrapToStaging(s: State, item: Item, generation: nat, u: Unwrap): (r: (State, Code))
  {
    var rc := UnwrapCode(item, u);
    if rc != Success then (s, rc)
    else
      SaveState(s.(mem := s.mem.(
        staging := s.mem.staging[item.purpose := StagedSlot(item, generation, u.key)],
        stagingGeneration := generation)))
  }

  function VerifyStaging(m: Image, p: Purpose, cipherFault: bool): Code {
    if p !in m.staging then WrappedKeyInvalid
    else if KeySize(m.staging[p].algorithm) == 0 then Unsupported
    else if cipherFault || !Unseals(p, m.staging[p]) then WrappedKeyInvalid
    else if |m.staging[p].sealed.key| != KeySize(m.staging[p].algorithm) then WrappedKeyInvalid
    else Success
  }

  predicate BothStagedAt(m: Image, generation: nat) {
    forall p :: p in REQUIRED ==> p in m.staging && m.staging[p].generation == generation
  }

  /** Both staged slots become active together, or the active slots stay as they were. The
      staging is gone either way. */
  function CommitBatch(s: State, generation: nat, owner: Rid): (r: (State, Code)) {
    if !BothStagedAt(s.mem, generation) then (s, PartialRollback)
    else if s.mem.stagingGeneration != generation then (s, Conflict)
    else
      var batch := map p | p in REQUIRED :: s.mem.staging[p];
      var active := s.mem.active + batch;
      var m := s.mem.(active := active, generation := generation,
                      marker := MarkerOf(generation, active), staging := map[], stagingGeneration := 0);
      var (s1, rc) := SaveState(s.(mem := m));
      if rc == Success then (s1.(commits := s.commits + [Commit(owner, generation, batch)]), Success)
      else (s1.(mem := s.mem.(staging := map[], stagingGeneration := 0)), rc)
  }

  function RollbackStaging(s: State, generation: nat): (r: (State, Code)) {
    if s.mem.stagingGeneration != 0 && s.mem.stagingGeneration != generation then (s, Conflict)
    else SaveState(s.(mem := s.mem.(staging := map[], stagingGeneration := 0)))
  }

  /** The proof the security module signed, when the active slot has the asked version. */
  function GenerateProof(m: Image, p: Purpose, version: nat, signed: Option<seq<byte>>): Option<seq<byte>> {
    if p !in m.active || m.active[p].version != version then None
    else if signed.Some? && |signed.value| == 64 then signed
    else None
  }

  // ---- journal, residue, start-up ----

  function SaveJournal(s: State, e: Entry): (r: (State, Code)) {
    SaveState(s.(mem := s.mem.(journal := s.mem.journal[e.rid := e])))
  }

  predicate HasTransactionResidue(m: Image) {
    m.staging != map[] || m.marker != NoMarker
  }

  /** What a fresh process reads back: the saved record, without the active slots when the
      commit marker does not authenticate them. */
  function Load(disk: Image): Image {
    if disk.active != map[] && disk.marker != MarkerOf(disk.generation, disk.active)
    then disk.(active := map[])
    else disk
  }

  // ---- the ledger: a map with its own save per row ----

  function LedgerPut(s: State, p: Purpose, row: LedgerRow): State {
    var o := NextOutcome(s.alive, s.script);
    var ledger := s.ledger[p := row];
    s.(ledger := ledger, alive := s.alive && !LosesPower(o), script := ScriptTail(s.alive, s.script),
       ledgerDisk := if Lands(o) then ledger else s.ledgerDisk)
  }
}
