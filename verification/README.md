# Security service: a verified model

This project models the parts of the vehicle security service whose correctness is hard to see
from any one function, and proves what they promise. `dafny verify dfyconfig.toml` checks
everything.

- **Key import with crash recovery** (`provider_*`, `provisioning*`, `soft_file_provider`). The
  provisioning service runs a journalled pipeline (stage two keys, verify, commit, prove, record)
  over a provider that saves its whole state as one record. `provider_state.dfy` and
  `provisioning.dfy` give each operation as a function on the complete state (memory, disk, ledger,
  power); `soft_file_provider.dfy` and `provisioning_service.dfy` are the classes that work in place,
  loop by loop, each method equal to its function. A save consults a script: it is done, it is
  refused, or power goes just before or after it. All results are over every run of imports on both
  interfaces and restarts, with any script, so power may go at any save, during recovery included.
- **Certificate store** (`certificate_*`). Immutable generation directories, a manifest and a CURRENT
  pointer refine an atomic register, with a failure or a power loss at every file step of commit,
  clean-up and recovery.
- **Trusted time** (`trusted_time*`). The gate over platform and RTC readings, last-known-good, the
  monitor's cached lease, and true UTC over the reals, up to the KL1 admission deadline.
- **Encoders and scanners** (`canonical_encoding`, `segment_reader`, `key_encodings`,
  `request_digest`, `envelope_binding`, `der_encoding`, `csr_*`, `base64*`, `pem_scanner`). Loops over
  byte buffers, with unique decodability, round trips, exact languages, and receivers written from
  the wire formats alone that read the built bytes back field by field.
- **Seed/key lockout** (`seed_key`, `seed_key_service`). The answer of every call, and a rate bound
  over whole runs.

Both classes and functions are used because the properties span many calls: a method's contract
ties it to a function of the old state, and the lemmas about runs are about those functions. What
each function answers is then said again without it, as conditions on inputs and fields with the
constants written out (`provider_answers`, `provisioning_answers`, `provisioning_reports`,
`trusted_time_answers`, `csr_reader`, `base64_meaning`).
`commits`, `everDurable`, `serial`, `reading` and `guard` are history: no decision reads them.

## What the proofs found

Where a promise is false of the code, the model keeps the code and states exactly when it holds.

- *Recovery can credit the wrong request.* Generation numbers are reused after a rollback, and
  recovery asks only whether the active slots carry the entry's generation. A request left open by
  one refused save is answered SUCCESS on replay after another request has committed
  (`WrongRequestCredited`, and a concrete run from a factory-fresh provider). Everything memory and
  recovery say about requests is right at every point of a run if and only if no request commits in
  that run while another is open (`RunsAreHonestExactlyWhenDisciplined`, `VerdictExactly`).
- *A wrong credit also hides the keys.* It overwrites the ledger's rows, and the status query then
  reads ACTIVE for a purpose if and only if the two requests name the same version and key id for it
  (`WrongCreditStatusExactly`). While no request commits beside an open one, the status is MISSING
  exactly before the first commit and ACTIVE exactly when the row is that of the last commit, crashes
  included (`StatusTellsTheTruth`); without a restart that is exactly when the last committed request
  is closed (`StatusFollowsTheJournal`).
- *A committed and acknowledged key can read INVALID after a restart.* The ledger is saved apart from
  the journal and a start-up repairs it only for entries still open on the disk: the status is ACTIVE
  after a restart if and only if the last committed request was still open there or the saved ledger
  has its row (`RestartStatusExactly`). Two refused ledger saves are enough
  (`AcknowledgedKeyReadsInvalid`).
- *A FAILED answer can be forgotten.* It is final over every further run if and only if some entry for
  the request has reached the disk (`FailedIsFinalExactly`); one call from a fresh provider gets there
  (`FailedCanBeForgotten`).
- *KL1 admits a new operation only before the first commit ever.* The commit marker is never empty
  again, and it counts as residue for every request id (`Kl1OnlyBeforeFirstCommit`; the exact
  condition for a new KL1 import to succeed is `HealthyKl1ImportSucceeds`).
- *A certificate commit that fails may have switched*, against the comment in the code. With the
  power on it has, exactly when there was something to publish, the first six steps were done and
  the seventh, the sync of the root directory after the rename, failed
  (`FailedCommitSwitchesExactly`); the process then keeps serving the old generation and the next
  start serves the new one (`FailedCommitMayHaveSwitched`).
- *The fallback after file corruption is not idempotent.* The first start adopts an earlier
  generation, leaves CURRENT alone and removes the directory it names; the second start finds nothing
  to follow and removes every generation, the good one included. When the first start returns, so
  does the second, and the two agree exactly when CURRENT is absent or whole, when the links end
  without a whole generation, or when the adopted generation is the direct predecessor and itself
  names CURRENT as its own (`FallbackRepeatsExactly`).
- *The fallback need not return.* The source's loop over predecessor links goes on for ever if and
  only if no number of links leads to the empty id or to a whole generation, as when two broken
  generations name each other (`WalkEndlessExactly`).
- *The rollback tolerance can be exceeded by under a millisecond.* The platform gate compares with
  last-known-good cut to milliseconds. A run keeps the tolerance exactly when no platform query in it
  meets that case (`ToleranceKeptExactly`), and under the default configuration all runs do exactly
  when the RTC grants only whole milliseconds or instants that are not positive
  (`ToleranceKeptExactlyByCleanSources`); for any other instant two queries from an empty guard break
  it (`UndershootIsReached`). The RTC adapter in the repository never grants
  (src/trusted_time.cpp:592-598), so today the tolerance is kept (`NoRtcKeepsTolerance`).
- *The freshness and uncertainty limits are exclusive.* The documentation says at most 300 s and 2 s;
  at the limit the lease is zero and the grant is withheld (`GateGrantsExactly`).
- *The reported interval can miss true time*: above, by the part of a millisecond the drift division
  drops; below, by up to the whole round trip, all of which is added to the reported time. It encloses
  true time for every transit within the round trip if and only if the division is exact and the round
  trip is zero or the drift bound is at least one second per second (`ReportEnclosesExactly`, and
  `AboveReportExactly` and `BelowReportExactly` for each end). The deadline check is unaffected
  (`Kl1StartsBeforeTrueDeadline`).
- *DER lengths wrap at 65536* and *segment lengths at 2^32*; both limits are exact
  (`RoundTripExactly`, `SegmentsUniqueExactly`). For a P-256 key the identity is the only thing that
  can be too long: without a zero byte in it, from 32639 bytes on (`WholeIdentityParsesExactly`).
- *The key usage is not minimal DER.* The builder always writes an unused-bit count of zero, which
  section 11.2.2 of X.690 allows for a named bit list exactly when there is no data or its last byte
  is odd (`ZeroUnusedExactly`); the key usage ends in three zero bits (`KeyUsageNotMinimal`).

## Model

| member | source | states |
|---|---|---|
| ProvisioningTheorems.EveryRestartConverges | src/business_key_provisioning.cpp:499-508 | from every state any crashing run reaches, a start-up ends with no open journal entry, empty staging, and nothing or one whole committed batch active under its commit marker |
| ProvisioningTheorems.ImportIsAtomic | src/business_key_provisioning.cpp:514-657 | an import and a restart, power lost wherever, leave the full old batch or the full new one; a first SUCCESS means the new one, a FAILED answer the old one |
| ProvisioningTheorems.CommitIsWholeBatch | src/soft_file_business_key_provider.cpp:676-715 | a call commits nothing, or both slots become this request's items, whatever was left in staging, the generation rises by exactly one and every version strictly |
| ProvisioningTheorems.SuccessIsForever | src/business_key_provisioning.cpp:710-742 | once a caller saw SUCCESS, the result query answers COMMITTED with the same purpose, key id, version, algorithm, envelope digest and check value per item after any further imports, crashes and restarts |
| ProvisioningTheorems.OneCommitPerRequest | src/business_key_provisioning.cpp:986-1009 | in any run no request commits twice, commit n has generation n, and versions rise from each commit to every later one |
| ProvisioningTheorems.ClosedEntriesStay | src/business_key_provisioning.cpp:499-508 | no import changes an entry closed in memory, no step at all one the disk has closed |
| ProvisioningTheorems.RunKeeps | src/soft_file_business_key_provider.cpp:418-445 | the invariant tying memory, disk, journal, staging and commits holds after every run, and nothing durable goes back |
| ProvisioningTheorems.NotFoundIsStrong | src/business_key_provisioning.cpp:750-767 | NOT_FOUND is answered if and only if the journal does not know the request, nothing was ever committed, nothing is staged and no ledger row names it; then no saved record ever held it |
| ProvisioningTheorems.NotFoundMeansNeverDurable | src/business_key_provisioning.cpp:663-675 | NOT_FOUND at the end of a run means no earlier saved record held the request and no batch was committed before |
| ProvisioningTheorems.Kl1OnlyBeforeFirstCommit | src/soft_file_business_key_provider.cpp:858-869 | after any commit, or with anything staged, KL1 refuses every new request and changes nothing |
| ProvisioningTheorems.ReplayAnswersTheSame | src/business_key_provisioning.cpp:986-1009 | once a caller saw SUCCESS, after any further run a replay with the same id and digest over either interface, for every deadline and every nonzero epoch, answers SUCCESS with the same acknowledgement and changes nothing |
| ProvisioningAnswers.ReplayAnsweredExactly | src/business_key_provisioning.cpp:986-1009 | over either interface and in every reachable state a known request id with another digest is a conflict and changes nothing; with the recorded one a SUCCEEDED entry gives its items and time, a FAILED one IMPORT_UNKNOWN, an open one is recovered first |
| ProvisioningAnswers.ReplayAfterSuccess | src/business_key_provisioning.cpp:986-1009 | once SUCCESS was seen, after any further run a replay over either interface answers SUCCESS if and only if its digest is the recorded one, the first request's own; otherwise CONFLICT, and nothing changes |
| ProvisioningAnswers.ReplayAfterFailure | src/business_key_provisioning.cpp:989-1000 | the same for a FAILED request the disk knows: IMPORT_UNKNOWN with the same acknowledgement, or CONFLICT |
| ProvisioningAnswers.NewRequestIsRecorded | src/business_key_provisioning.cpp:514-547 | the entry a new request leaves has its own digest, the next generation and every item as asked for |
| ProvisioningAnswers.CommitIsAnnounced | src/business_key_provisioning.cpp:592-611 | the saved record that has new slots also has the request's entry as COMMITTING or later, wherever the power went |
| ProvisioningSaves.FirstSuccessTakesElevenSaves | src/business_key_provisioning.cpp:514-657 | a first SUCCESS over either interface saves exactly eleven times: every phase, key, ledger row and the commit is written through |
| ProvisioningAnswers.RecoverEntryExactly | src/business_key_provisioning.cpp:469-497 | every field of a recovered entry: SUCCEEDED now with active items under the last generation, FAILED with the rollback noted under any other |
| ProvisioningAnswers.QueryOfKnownExactly | src/business_key_provisioning.cpp:741-749 | the result query's state, items and time for each phase |
| ProvisioningAnswers.QueryBetweenCalls | src/business_key_provisioning.cpp:710-790 | after any run the query answers only COMMITTED, FAILED, UNKNOWN or NOT_FOUND, the first two exactly as the entry is closed |
| ProvisioningAnswers.ReachesJournalExactly | src/business_key_provisioning.cpp:918-984 | what a request must pass before the journal is looked at, over each interface |
| ProvisioningAnswers.StoppedBeforeJournal | src/business_key_provisioning.cpp:918-984 | a request that does not changes nothing and is told which check it was |
| ProvisioningAnswers.ItemRefusedExactly | src/business_key_provisioning.cpp:266-313 | which code a bad item gets, with all limits written out |
| ProvisioningTheorems.FailedIsFinalExactly | src/business_key_provisioning.cpp:499-508 | a request FAILED in memory stays FAILED over every further run if and only if an entry for it has reached the disk |
| ProvisioningTheorems.Kl1RejectionChangesNothing | src/business_key_provisioning.cpp:1170-1228 | an answer 1029 or 1030 leaves slots, staging, journal and ledger unchanged, in memory and on disk |
| ProvisioningTheorems.Kl1StartsBeforeDeadline | src/business_key_provisioning.cpp:1210-1228 | a KL1 call that changed anything for a new request read an upper end of trusted time strictly before the deadline at its last check |
| ProvisioningProgress.HealthyKl1ImportSucceeds | src/business_key_provisioning.cpp:1033-1242 | with a store that works, a new KL1 import succeeds if and only if the first checks pass, nothing was ever committed or is staged, no ledger row names the request, it is admitted, and the security module opens and signs everything |
| ProvisioningProgress.Kl1AdmitsExactly | src/business_key_provisioning.cpp:1170-1228 | the admission checks after the journal and residue checks pass if and only if both lease checks, the coverage by items and certificate, and the version and time check do |
| ProvisioningProgress.VersionAndTimeAccepts | src/business_key_provisioning.cpp:315-331 | accepted if and only if time is trusted, every item is newer than its active slot and valid now |
| ProvisioningProgress.HealthyImportSucceeds | src/business_key_provisioning.cpp:918-1027 | with a store that works, a new request succeeds if and only if the checks pass and the security module opens every item and signs every proof |
| ProvisioningProgress.SuccessIsInLedger | src/business_key_provisioning.cpp:448-467 | a first SUCCESS leaves one ledger row per purpose with the item's metadata, the new generation and this request |
| ProvisioningReports.FirstSuccessReports | src/business_key_provisioning.cpp:577-657 | every field of a first SUCCESS: the items as asked for, the module's check value, its signed proof, the certificate and the commit time |
| ProvisioningReports.PipelineAnswersExactly | src/business_key_provisioning.cpp:514-657 | with a store that works, the answer and the phase left behind for every outcome of the security module: first rejected item, inner failure, cipher fault, missing proof, success |
| ProvisioningReports.NewRequestAnsweredExactly | src/business_key_provisioning.cpp:1010-1027 | the answer to a new request over either interface: residue, admission and version checks change nothing, otherwise the pipeline's outcome |
| ProvisioningReports.Kl1RefusedExactly | src/business_key_provisioning.cpp:1170-1228 | exactly when KL1 refuses for a foreign epoch, for the deadline and for untrusted time |
| ProvisioningReports.VersionAndTimeRefuses | src/business_key_provisioning.cpp:315-331 | the code of a refusal, by the first item that is not newer or not valid now |
| ProvisioningReports.UnwrapAnsweredExactly | src/soft_file_business_key_provider.cpp:593-657 | an item opens if and only if the key has its algorithm's size and the check value it names; otherwise the code |
| ProvisioningProgress.WrongRequestCredited | src/business_key_provisioning.cpp:469-497 | a request left open by a refused save is answered SUCCESS after another request commits, though it never committed |
| ProvisioningProgress.WrongRequestCreditedFromScratch | src/business_key_provisioning.cpp:255-264 | the same as a concrete run of three calls from a fresh provider |
| ProvisioningProgress.FailedCanBeForgotten | src/business_key_provisioning.cpp:514-657 | a concrete call from a fresh provider, answered as failed, with the request FAILED in memory and unknown to the disk, and a run after which it is FAILED no more |
| ProvisioningLedger.StatusTellsTheTruth | src/business_key_provisioning.cpp:400-431 | over every crashing run in which no request commits while another is open, a status query answers MISSING exactly before the first commit and ACTIVE exactly when the row is that of the last commit |
| ProvisioningLedger.StatusFollowsTheJournal | src/business_key_provisioning.cpp:400-467 | without a restart in such a run, both purposes read ACTIVE exactly when the last committed request is closed as SUCCEEDED and INVALID exactly while it is open |
| ProvisioningLedger.StatusExactly | src/business_key_provisioning.cpp:400-431 | in any invariant state with true rows, the answer in terms of the commits and the row's request |
| ProvisioningLedger.ImportCredits | src/business_key_provisioning.cpp:448-497 | an import writes no row and closes nothing as SUCCEEDED, or closes its own request under the last generation with all its rows in the ledger's memory |
| ProvisioningStatus.RestartStatusExactly | src/business_key_provisioning.cpp:400-508 | after a restart the status is ACTIVE if and only if the last committed request was still open on the disk or the saved ledger has its row |
| ProvisioningStatus.AcknowledgedKeyReadsInvalid | src/business_key_provisioning.cpp:448-508 | from a fresh provider: a missing proof, a replay answered SUCCESS while two ledger saves are refused, and any restart after it; both slots active, the result query COMMITTED, both status queries INVALID |
| ProvisioningStatus.WrongCreditStatusExactly | src/business_key_provisioning.cpp:482-489 | after a wrong credit the rows name the uncommitted request, and a status reads ACTIVE if and only if the two requests name the same version and key id |
| ProvisioningVerdicts.VerdictExactly | src/business_key_provisioning.cpp:469-497 | in any reachable state the verdict on an open entry is right if and only if its generation is uncommitted, or is the last one and its own, or an older one of another request |
| ProvisioningVerdicts.RecoveryTellsTheTruth | src/business_key_provisioning.cpp:469-508 | over every crashing run in which no request commits while another is open, entries are SUCCEEDED exactly when their own batch was committed, and every recovery verdict is right |
| ProvisioningVerdicts.RunsAreHonestExactlyWhenDisciplined | src/business_key_provisioning.cpp:469-508 | closed entries and recovery verdicts are right at every point of a run if and only if no request commits in it while another is open |
| ProvisioningVerdicts.DisciplineIsNeeded | src/business_key_provisioning.cpp:255-264 | when a new request commits, the verdicts on the other open entries are right if and only if there are none |
| ProvisioningCalls.StructureAccepts | src/business_key_provisioning.cpp:266-313 | the structure check accepts exactly one well-formed item per purpose with distinct key ids |
| ProvisioningCalls.PipelineKeeps | src/business_key_provisioning.cpp:514-657 | a pipeline touches one journal entry and either commits nothing or makes this request's items active and durable together with its entry |
| ProvisioningCalls.StageFromKeeps | src/business_key_provisioning.cpp:548-577 | the unwrap loop ends the pipeline without a commit or leaves exactly this request's items staged |
| ProvisioningRecovery.RestartSettles | src/business_key_provisioning.cpp:469-508 | what a start-up does to every entry: closed ones stay, open ones close as SUCCEEDED exactly when the active generation is theirs |
| ProvisioningRecovery.RecoverKeeps | src/business_key_provisioning.cpp:469-497 | recovery closes the one entry it is given and keeps the invariant |
| ProvisioningInvariants.CommitKeeps | src/soft_file_business_key_provider.cpp:676-715 | a commit activates the whole batch in memory and on disk, or nothing active changes in either |
| ProvisioningInvariants.SaveJournalKeeps | src/soft_file_business_key_provider.cpp:871-879 | a journal write changes one entry in memory; the disk takes the whole memory or nothing |
| SoftFileProvider.SoftFileBusinessKeyProvider.SaveState | src/soft_file_business_key_provider.cpp:418-445 | replaces the whole record or leaves it |
| SoftFileProvider.SoftFileBusinessKeyProvider.Initialize | src/soft_file_business_key_provider.cpp:536-565 | reads the record back; without a matching commit marker no slot is active |
| SoftFileProvider.SoftFileBusinessKeyProvider.UnwrapToStaging | src/soft_file_business_key_provider.cpp:593-657 | the staging after an unwrap, or the code it failed with |
| SoftFileProvider.SoftFileBusinessKeyProvider.CommitBatch | src/soft_file_business_key_provider.cpp:676-715 | both staged slots active with a new marker, or the old slots, generation and marker restored |
| SoftFileProvider.SoftFileBusinessKeyProvider.RollbackStaging | src/soft_file_business_key_provider.cpp:717-726 | staging of this generation dropped and saved, another's left |
| SoftFileProvider.SecureMetadataLedger.Put | src/secure_metadata_ledger.cpp:92-107 | the row is in memory whether or not the save worked |
| ProviderAnswers.SaveAnsweredExactly | src/soft_file_business_key_provider.cpp:418-445 | when a save writes, what it answers, and that it writes the whole memory or nothing |
| ProviderAnswers.LoadExactly | src/soft_file_business_key_provider.cpp:536-565 | the slots of a record are served if and only if its marker is the tag of its generation and of version, key id, algorithm and generation of each slot |
| ProviderAnswers.MarkerBindsSlots | src/soft_file_business_key_provider.cpp:255-268 | any two records with the same marker that are both served agree on all of these |
| ProviderAnswers.UnwrapStages | src/soft_file_business_key_provider.cpp:593-657 | the staged slot field by field, sealed for exactly its purpose, version and generation; nothing else touched |
| ProviderAnswers.VerifyAnsweredExactly | src/soft_file_business_key_provider.cpp:659-674 | a staged key verifies if and only if it is there, decrypts and has its algorithm's size |
| ProviderAnswers.CommitAnsweredExactly | src/soft_file_business_key_provider.cpp:676-715 | the code and the whole state after a commit, for every memory and every outcome of the save |
| ProviderAnswers.RollbackAnsweredExactly | src/soft_file_business_key_provider.cpp:717-726 | the same for a rollback |
| ProviderAnswers.LedgerAnsweredExactly | src/secure_metadata_ledger.cpp:92-107 | a ledger row in memory whatever the save does; the save writes the whole ledger or nothing |
| ProviderAnswers.SlotAnsweredExactly | src/soft_file_business_key_provider.cpp:732-756 | a slot is active if and only if it is there and opens under its own purpose, version and generation |
| ProviderAnswers.ProofAnsweredExactly | src/soft_file_business_key_provider.cpp:758-810 | a proof if and only if the slot has the asked version and 64 bytes were signed |
| ProvisioningService.BusinessKeyProvisioningService.ValidateStructure | src/business_key_provisioning.cpp:266-313 | the loop with seen purposes and key ids computes the first failing code |
| ProvisioningService.BusinessKeyProvisioningService.RecoverEntry | src/business_key_provisioning.cpp:469-497 | the state and entry after recovering one entry |
| ProvisioningService.BusinessKeyProvisioningService.Initialize | src/business_key_provisioning.cpp:823-869 | a start-up equals the restart function and ends with everything closed, nothing staged and the last committed batch active |
| ProvisioningService.BusinessKeyProvisioningService.RunPipeline | src/business_key_provisioning.cpp:514-657 | the pipeline's final state and answer |
| ProvisioningService.BusinessKeyProvisioningService.Import | src/business_key_provisioning.cpp:918-1027 | the import's final state and answer; it keeps the invariant and touches only its own entry |
| ProvisioningService.BusinessKeyProvisioningService.ImportKl1 | src/business_key_provisioning.cpp:1033-1242 | the same for the KL1 interface |
| ProvisioningService.BusinessKeyProvisioningService.QueryResult | src/business_key_provisioning.cpp:710-790 | the answer to a result query |
| CertificateRegister.CommitIsAtomic | src/certificate_store.cpp:351-400 | a commit with any step failing or losing power leaves the old value or a new one with the id, chain, record, version and state it was given and the served generation as predecessor, the new one on SUCCESS; otherwise memory is unchanged; which calls are refused |
| CertificateRegister.OpenYieldsValue | src/certificate_store.cpp:284-349 | opening a crash-only disk adopts exactly the register's value and never takes the fallback |
| CertificateRegister.CleanupKeeps | src/certificate_store.cpp:256-278 | clean-up, wherever it fails, leaves CURRENT and the two kept generations as they were |
| CertificateRegister.WrittenReadsBack | src/certificate_store.cpp:152-235 | a written candidate passes the self-check exactly when it has a chain and a JSON object, and then reads back as it was |
| CertificateRegister.LoadsAsWrittenExactly | src/certificate_store.cpp:152-235 | with its own manifest a generation loads as it was written or, when chain or record are not those, not at all |
| CertificateRegister.LoadedIsListed | src/certificate_store.cpp:152-235 | what loads under an id is what a manifest of that id lists, both files included |
| CertificateRuns.RegisterHoldsLastCommit | src/certificate_store.cpp:284-400 | over every run the register holds the last acknowledged commit or a later attempted one, whole |
| CertificateRuns.StartServesLastCommit | src/certificate_store.cpp:284-349 | a start after any run from an empty disk serves that value |
| CertificateRuns.OpeningLeavesNoOrphans | src/certificate_store.cpp:256-278 | after an undisturbed opening only CURRENT's generation and its predecessor remain |
| CertificateRuns.HealthyCommitSucceeds | src/certificate_store.cpp:351-400 | when nothing fails, a commit succeeds if and only if the store is recovered, the chain is nonempty and the record is a JSON object |
| CertificateRuns.CommitLeavesNoOrphans | src/certificate_store.cpp:394-400 | after an undisturbed commit only the new generation and its predecessor remain |
| CertificateRuns.FailedWriteLeavesNothing | src/certificate_store.cpp:371-379 | a commit whose write fails in any one step takes its candidate back; the disk is as it was |
| CertificateRuns.FailedCommitSwitchesExactly | src/certificate_store.cpp:376-393 | a commit that did not answer SUCCESS, power on, has moved the register if and only if it had something to publish, six steps were done and the root sync failed |
| CertificateRuns.FailedCommitMayHaveSwitched | src/certificate_store.cpp:238-242 | every such root sync failure: failure answered, old generation served, new one on disk and after the next start |
| CertificateRuns.FallbackRepeatsExactly | src/certificate_store.cpp:284-342 | after corruption of any kind on which the first start returns, the second returns too, and the exact condition under which it gives the same memory and answer; otherwise it loses every generation |
| CertificateRuns.WalkEndlessExactly | src/certificate_store.cpp:303-338 | the loop over predecessor links goes on for ever if and only if no number of links leads to the empty id or to a whole generation |
| CertificateRuns.OpenServesExactly | src/certificate_store.cpp:284-349 | whatever has happened to the files, a start that returns serves the first whole generation on the links from CURRENT on, and fails if there is none |
| CertificateRuns.SuccessIsServedNext | src/certificate_store.cpp:351-400 | what a commit answered SUCCESS about is what memory and the next start serve, field by field |
| CertificateStoreObject.CertificateStore.Commit | src/certificate_store.cpp:351-400 | the store object's commit equals the commit function; on SUCCESS it serves what it was given, field by field, otherwise what it served before |
| CertificateStoreObject.CertificateStore.OpenAndRecover | src/certificate_store.cpp:284-349 | opening, fallback walk included, on any disk where the walk ends |
| CertificateStoreObject.CertificateStore.Cleanup | src/certificate_store.cpp:256-278 | the directory walk leaves CURRENT and the kept generations untouched |
| TrustedTimeTheorems.GateGrantsExactly | src/trusted_time.cpp:283-416 | the exact condition of a platform grant and the instant, uncertainty, age and lease it reports |
| TrustedTimeAnswers.GateAnswersExactly | src/trusted_time.cpp:283-416 | every reason of the platform gate and exactly when it is given, with age, uncertainty, remaining validity and limits written out; the facts each answer carries and the lease of a grant |
| TrustedTimeAnswers.RtcAnswersExactly | src/trusted_time.cpp:418-461 | the same for the RTC gate |
| TrustedTimeAnswers.QueryAnswersExactly | src/trusted_time.cpp:248-281 | the platform's grant, then the RTC's; without either the RTC's refusal is the answer if and only if there was no platform or it could not be reached and the RTC says more |
| TrustedTimeAnswers.DecisiveRefusalIsReported | src/trusted_time.cpp:272-277 | a decisive refusal of the platform is never hidden by the RTC's |
| TrustedTimeAnswers.NoRtcHidesNothing | src/trusted_time.cpp:592-598 | with the repository's RTC adapter the answer is always the platform's |
| TrustedTimeTheorems.LkgIsLargestGrant | src/trusted_time.cpp:463-474 | over every sequence of queries last-known-good is the largest instant ever granted |
| TrustedTimeTheorems.EveryGrantAboveEarlier | src/trusted_time.cpp:379-392 | every granted instant is at least every earlier one minus the tolerance, less by under a millisecond, not at all when guard and RTC instants are whole milliseconds or not positive |
| TrustedTimeTheorems.ToleranceKeptExactly | src/trusted_time.cpp:379-392 | a run keeps the tolerance between all its grants and the guard it starts with if and only if no platform query in it undershoots |
| TrustedTimeTheorems.ToleranceKeptExactlyByCleanSources | src/trusted_time.cpp:248-281 | under the default configuration, all runs from an empty guard whose RTC grants instants of a given source keep the tolerance if and only if the source has only whole milliseconds and instants that are not positive |
| TrustedTimeTheorems.UndershootIsReached | src/trusted_time.cpp:248-281 | for any other RTC instant, two queries from an empty guard end below the tolerance |
| TrustedTimeTheorems.NoRtcKeepsTolerance | src/trusted_time.cpp:592-598 | with the repository's RTC adapter every run from an empty guard keeps the tolerance |
| TrustedTimeTheorems.PlatformUndershootExactly | src/trusted_time.cpp:379-392 | the one case in which a platform grant goes below the tolerance |
| TrustedTimeTheorems.ToleranceKeptExactlyOnWholeMilliseconds | src/trusted_time.cpp:379-392 | the tolerance is kept by every platform grant if and only if last-known-good is whole milliseconds or not positive |
| TrustedTimeMonitor.LeaseStandsInForGate | src/trusted_time.cpp:357-415 | within the lease, re-running the gate later on the same snapshot grants again with at least the remaining lease, for drift up to 1,000,000 ppm |
| TrustedTimeMonitor.TrustedTimeMonitor.Get | src/trusted_time.cpp:788-816 | a trusted cached platform answer is one the gate would give now for at least as long; a stale token gets nothing |
| TrustedTimeAnswers.AgedExactly | src/trusted_time.cpp:803-815 | a cached grant stays trusted exactly while its lease is longer than the time since the refresh, with exactly the rest |
| TrustedTimeAnswers.SameFactsExactly | src/trusted_time.cpp:742-751 | the eight facts whose change raises an event |
| TrustedTimeMonitor.TrustedTimeMonitor.Refresh | src/trusted_time.cpp:720-736 | the cache is the sources' answer, the lease counted from before it was read; an event only when facts changed |
| TrustedTimeMonitor.TrustedTimeMonitor.Tick | src/trusted_time.cpp:700-713 | a refresh when due, otherwise a revocation exactly when a lease is over, otherwise nothing; after it no trusted answer whose lease is over is cached |
| TrustedTimeMonitor.TrustedTimeMonitor.PublishIfChanged | src/trusted_time.cpp:755-786 | the sequence rises by one exactly when a fact differs from the last event |
| TrustedTime.CompositeTrustedTimeProvider.Query | src/trusted_time.cpp:248-281 | platform first, then RTC, the more specific refusal otherwise; last-known-good updated |
| TrustedTimeAdmission.GrantEnclosesTrueTime | src/trusted_time.cpp:357-365 | true UTC is below utc + uncertainty + 1 ms and above utc - uncertainty - rtt - 1 ms when the snapshot's bounds hold |
| TrustedTimeAdmission.Kl1StartsBeforeTrueDeadline | src/business_key_provisioning.cpp:157-170 | a KL1 import that starts anything does so strictly before its deadline in true time |
| TrustedTimeAdmission.ReportEnclosesExactly | src/trusted_time.cpp:357-365 | the reported interval encloses true time at every transit within the bounds if and only if the drift division is exact and the round trip is zero or the drift bound at least one second per second |
| TrustedTimeAdmission.AboveReportExactly | src/trusted_time.cpp:357-365 | true time can lie above the report, at some transit, if and only if the drift division has a remainder |
| TrustedTimeAdmission.BelowReportExactly | src/trusted_time.cpp:357-365 | true time can lie below the report if and only if there is a remainder, or a round trip that the drift does not outgrow |
| CanonicalEncoding.ByteBuffer.AppendUint64be | src/canonical_encoding.cpp:22-26 | the loop appends the eight bytes, highest first |
| CanonicalEncoding.ByteBuffer.AppendEnumVarint | src/canonical_encoding.cpp:28-39 | the loop appends the varint |
| CanonicalEncoding.VarintUnique | src/canonical_encoding.cpp:28-39 | streams that start with a varint and agree hold the same value and agree after it |
| CanonicalEncoding.SegmentsUnique | src/canonical_encoding.cpp:41-58 | any list of segments is determined by its bytes |
| CanonicalEncoding.SegmentsUniqueExactly | src/canonical_encoding.cpp:41-44 | lists of segments of at most n bytes are determined by their bytes if and only if n < 2^32 |
| CanonicalEncoding.HexRoundTrip | src/canonical_encoding.cpp:168-198 | reading written hexadecimal gives the bytes back |
| CanonicalEncoding.HexOfUnhex | src/canonical_encoding.cpp:168-198 | writing read hexadecimal gives the same digits in lower case |
| CanonicalEncoding.HexToBytes | src/canonical_encoding.cpp:181-198 | accepts exactly even-length strings of hexadecimal digits of either case |
| CanonicalEncoding.HexStands | src/canonical_encoding.cpp:168-180 | two digits per byte, the high half first |
| CanonicalEncoding.UnhexStands | src/canonical_encoding.cpp:181-198 | the same for reading |
| SegmentReader.SegmentsBack | src/canonical_encoding.cpp:41-58 | a receiver of the framing reads any list of segments back |
| SegmentReader.IntegerBack | src/canonical_encoding.cpp:22-26 | and eight-byte integers |
| SegmentReader.VarintBack | src/canonical_encoding.cpp:28-39 | and varints |
| KeyEncodings.BuildParProtoAadV1 | src/canonical_encoding.cpp:126-140 | the bytes from which a receiver reads the ten fields, in the protocol's order, and then the end |
| KeyEncodings.BuildWireEnvelopeDigestInput | src/canonical_encoding.cpp:111-124 | the same for the nine fields |
| KeyEncodings.BuildProofInput | src/canonical_encoding.cpp:146-157 | the same for the context and seven fields, the key id as its hash, for any hash function |
| KeyEncodings.AadInjective | src/canonical_encoding.cpp:126-140 | equal associated data means equal fields |
| KeyEncodings.DigestInputInjective | src/canonical_encoding.cpp:111-124 | equal digest input means equal fields |
| KeyEncodings.ProofInputInjective | src/canonical_encoding.cpp:146-157 | proof inputs are equal if and only if all fields but the key id are, and the key ids have the same hash |
| KeyEncodings.KindsDisjoint | src/canonical_encoding.cpp:111-157 | no byte string is of two of the three kinds |
| RequestDigest.DigestIdentifiesRequest | src/business_key_provisioning.cpp:334-381 | the hashed bytes are equal if and only if the headers and the collections of rows are, in whatever order the items came |
| RequestDigest.PreimageUnique | src/business_key_provisioning.cpp:351-379 | header and rows, for any number of rows, are read back in one way only |
| RequestDigest.RequestRead | src/business_key_provisioning.cpp:351-379 | a receiver reads context, header and rows back, field by field in the protocol's order |
| RequestDigest.BeforeExactly | src/business_key_provisioning.cpp:343-345 | the order of purposes: smaller byte at the first difference, or a proper prefix |
| RequestDigest.SortedOnce | src/business_key_provisioning.cpp:343-349 | rows with distinct purposes have one sorted order |
| RequestDigest.BuildRequestDigestInput | src/business_key_provisioning.cpp:334-381 | sorting and the row loop build exactly those bytes, from which a receiver reads the header and the rows sorted by purpose; with distinct purposes, those of any sorted order |
| EnvelopeBinding.ValidateEnvelope | src/business_key_envelope.cpp:158-268 | the checks in order accept if and only if format, suite, algorithm and lengths fit, the device is capable, and the received bytes and digests are those of the outer context; which of the three codes a refusal gives, exactly |
| EnvelopeBinding.AcceptedCarries | src/business_key_envelope.cpp:109-130 | what a receiver reads off an accepted envelope's associated data and digest input: profile, purpose number, versions, recipient, request, domain, key id, derivation, contents |
| EnvelopeBinding.SealedIsAccepted | src/business_key_envelope.cpp:204-268 | an envelope built from its context is not refused by the comparisons |
| EnvelopeBinding.AadBindsContext | src/business_key_envelope.cpp:109-130 | two accepted envelopes with the same associated data agree on request, domain, purpose, key id, versions, derivation and recipient |
| EnvelopeBinding.DigestBindsContents | src/business_key_envelope.cpp:244-260 | two accepted envelopes with the same digest are the same item for the same request and domain |
| DerEncoding.RoundTripExactly | src/csr_builder.cpp:21-78 | a tree parses back from its encoding if and only if its content is under 65536 bytes |
| DerEncoding.ParsedEncodes | src/csr_builder.cpp:21-33 | the strict parser accepts nothing but encodings, with minimal lengths at every level |
| DerEncoding.SizedByRoot | src/csr_builder.cpp:64-69 | all lengths fit if and only if the outermost does |
| CsrBuilder.BuildCsrInfo | src/csr_builder.cpp:268-363 | the built bytes are the encoding of the request-information tree, and parse back to it exactly below the limit |
| CsrBuilder.InfoParsesExactly | src/csr_builder.cpp:268-363 | the tree is read back if and only if its content is under 65536 bytes |
| CsrSize.InfoFitsExactly | src/csr_builder.cpp:129-363 | its content is under 65536 bytes if and only if the sizes of its parts, computed from the lengths of identity, common name and key, say so |
| CsrSize.P256InfoParsesExactly | src/csr_builder.cpp:268-363 | with a 65-byte key the tree is read back if and only if the identity and its encoded name are together under 65348 bytes |
| CsrSize.WholeIdentityParsesExactly | src/csr_builder.cpp:268-363 | an identity without a zero byte is read back if and only if it has at most 32638 bytes |
| CsrBuilder.ExtensionValuesParse | src/csr_builder.cpp:183-266 | the values inside the extensions' octet strings parse too, the alternative name if and only if the identity is under 65520 bytes |
| CsrBuilder.InfoTellsIdentity | src/csr_builder.cpp:129-210 | equal request information that can be read back means equal identity and key, although the common name is cut at a zero byte |
| CsrReader.InfoReads | src/csr_builder.cpp:129-363 | what a reader of the standards reads out of the built bytes: version, the four names, algorithm and curve, the key, the three extensions and their values |
| CsrReader.CStringExactly | src/csr_builder.cpp:141-146 | the common name is the identity up to its first zero byte |
| CsrBuilder.ZeroUnusedExactly | src/csr_builder.cpp:47-55 | a named bit list written with an unused-bit count of zero is minimal if and only if it is empty or its last byte is odd |
| CsrBuilder.KeyUsageNotMinimal | src/csr_builder.cpp:215-239 | so the key usage is not minimal; three would be the only minimal count |
| Base64.EncodeLoop | src/sec_cli.cpp:14-61 | the three-byte and four-symbol loop computes base 64 with padding |
| Base64.DecodeLoop | src/certificate_chain_parser.cpp:28-64 | the overflowing 32-bit accumulator yields the plain bit stream; false exactly when nothing came out |
| Base64.LowBitsSurvive | src/certificate_chain_parser.cpp:28-64 | the accumulator's overflow never reaches the bits still needed |
| Base64.EncodedDecodes | src/certificate_chain_parser.cpp:28-64 | decoding an encoded string gives the bytes back |
| Base64.DecodesExactly | src/certificate_chain_parser.cpp:28-64 | success exactly with at least two values before the first '=', three bytes per four values |
| Base64Meaning.EncodedStands | src/sec_cli.cpp:14-61 | four symbols of the alphabet per started three bytes, as one 24-bit number, with '=' for what holds no bit |
| Base64Meaning.DecodedStands | src/certificate_chain_parser.cpp:52-62 | which bits of which values each decoded byte is |
| Base64Meaning.DigitsArePlaces | src/certificate_chain_parser.cpp:32-51 | a symbol's value is its place in the alphabet |
| Base64Meaning.ForeignIgnored | src/certificate_chain_parser.cpp:52-57 | any other symbol but '=' may be left out of the text |
| Base64Meaning.PadEnds | src/certificate_chain_parser.cpp:52-57 | nothing after '=' is read |
| Base64Meaning.ContentExactly | src/certificate_chain_parser.cpp:18-25 | what may stand inside a block |
| PemScanner.ScanRecognises | src/certificate_chain_parser.cpp:196-235 | accepted with given blocks if and only if they are well formed, within the budget and render to the text |
| PemScanner.OneTooMany | src/certificate_chain_parser.cpp:196-235 | one well-formed block above the maximum is refused as a size limit, whatever follows |
| PemScanner.ScannedRenders | src/certificate_chain_parser.cpp:196-235 | everything accepted or refused as too many starts with well-formed blocks |
| PemScanner.ScanBlocks | src/certificate_chain_parser.cpp:196-235 | the loop computes the stage, the block count and the first block's exact extent |
| PemScanner.PemRoundTrip | src/sec_cli.cpp:14-61 | every byte string written as a certificate block scans as exactly one block that decodes to it |
| PemScanner.WriteAndRead | src/certificate_chain_parser.cpp:196-235 | the same of the three loops together |
| SeedKey.RateBound | src/sec_service.cpp:1373-1396 | in a run without a match any interval of d nanoseconds holds at most 3 (floor(d / 10 s) + 1) failed comparisons |
| SeedKey.FailuresSpread | src/sec_service.cpp:1387-1396 | comparison j comes at least 10 s per three comparisons after comparison i |
| SeedKey.BoundIsMet | src/sec_service.cpp:1387-1396 | three failed comparisons at one instant are possible |
| SeedKey.EachComparisonItsOwnSeed | src/sec_service.cpp:578-665 | in every run each comparison uses up a seed of its own, issued after the previous one's |
| SeedKey.KeyAnsweredExactly | src/sec_service.cpp:578-665 | every code of a key verification and exactly when it is given, the comparison it logs and the state it leaves; SUCCESS if and only if the key is the one expected for a live seed of the level below, outside a lockout |
| SeedKey.SeedAnsweredExactly | src/sec_service.cpp:521-576 | the same for a seed request |
| SeedKey.SuccessExactlyWhenMatched | src/sec_service.cpp:578-665 | over every run a key call answers SUCCESS exactly when its own comparison is in the log as matched |
| SeedKeyService.SeedKeyGuard.GetSeed | src/sec_service.cpp:521-576 | the state after issuing a seed, or why none was issued |
| SeedKeyService.SeedKeyGuard.VerifyKey | src/sec_service.cpp:578-665 | the state, answer and comparison of one verification, and SUCCESS exactly for the expected key |
| SeedKeyService.SameKey | src/sec_service.cpp:630-638 | the loop without early exit decides equality |

## Left out

- SHA-256, HMAC and AES-GCM are ideal: a digest or tag is represented by what it was computed from, a sealed key opens under exactly its own associated data. Collisions, tampered journal entries and tampered state are outside the model.
- OpenSSL work (key agreement, signatures, certificate parsing, chain checks, point decoding), protobuf parsing and JSON text: their outcomes are parameters.
- Unknown state versions, an unready store, a missing security module, storage replacement and the governance flag: the fixed answers they lead to are not modelled.
- Import proofs across a crash and the event sequence number of a cached answer: the code does not guarantee them, and nothing is claimed.
- 64-bit wrap-around of generations, versions and clock arithmetic: integers are unbounded; the 16-bit DER length, the 32-bit segment length, the 32-bit base-64 accumulator and byte shifts are modelled exactly.
- One business domain, the default allow-lists, the two default purposes and the default size limits; a configuration that differs is not modelled.
- The request digest enters the import model as a string the caller supplies; what that string identifies is proved separately in `request_digest.dfy`.
- The envelope check's parameter parsing, curve-point check and capability flags are given by their outcomes, and the import model takes the whole check's result as a parameter.
- ProvisioningService.BusinessKeyProvisioningService.QueryResult: does not model the governance flag and journal reads that fail, which turn NOT_FOUND into UNKNOWN or an error.
- TrustedTimeMonitor.TrustedTimeMonitor.Tick: does not model connecting to and subscribing at the time service, which only decide whether a refresh is due.
- File steps of the certificate store: a temporary-file write with its rename and directory sync is one step, file reads do not fail, generation ids are fresh, and the manifest's creation time is not recorded.
- ProvisioningService.BusinessKeyProvisioningService.Initialize: states the start-up on a provider whose capabilities are ready; capability probing, epoch counters and readiness flags are not modelled.
- CertificateStoreObject.CertificateStore.OpenAndRecover: requires that the fallback walk ends, because otherwise the source loops for ever; `WalkEndlessExactly` says when.
- TrustedTimeMonitor.TrustedTimeMonitor.Get: the re-run uses last-known-good as the cached grant left it, not as later direct queries of the shared provider may have raised it.
- Connection management, subscriptions and threads of the time monitor: calls are atomic steps, as each service holds one mutex per call. The rollback bound is not claimed for concurrent queries, where check and accept take the lock separately.
- The CSR signature wrapper around the request information, the HKDF info string, the facts a status query copies besides its state, logging, the IPC server, the rest of the command line, the HSM provider and the fake time source.
