# Release pipeline: a verified model

This project models the durable state machines of a release pipeline and proves what they
keep over whole runs, with crashes, retries, failing services and interleaved processes as
steps of those runs.

* **Deployment target** (`ReleaseFiles`, `ReleaseCheck`, `ReleaseAnswers`, `ReleaseTarget`,
  `TargetInvariant`, `TargetSoundness`, `TargetPlans`, `TargetRuns`, `TargetHistory`,
  `TargetRecovery`, `TargetUndo`, `TargetAnswers`, `FilesystemAdapter`). Content-addressed releases
  are installed, deployed by moving `current`, and rolled back. An operation is a plan: the list of
  its atomic durable writes. A crash keeps a prefix of the plan. The class carries out each plan
  field by field.
* **Release gate** (`GateDisk`, `ReleaseGate`, `GateRuns`, `GateEvidence`, `GateProducer`,
  `GateReplay`, `GateAnswers`, `GateHandoff`, `GateController`, `GateImport`, `ImportAnswers`). One
  event with its frozen manifests and the files on a disk with links, from submission through test
  and approval to the final build and verdict.
* **Pre-release requests** (`PreRelease`, `PreReleaseRuns`, `PreReleaseConvergence`,
  `PreReleaseRecovery`, `PreReleaseAnswers`, `PreReleaseController`). Calls that freeze an intent, drive the gate
  and send one mail, over lying or failing gate and mail services.
* **Smaller protocols**: Runner activation (`RunnerTraces`, `RunnerAnswers`, `RunnerActivation`),
  the GitLab receipt verifier (`GateReceipt`, `ReceiptVerdict`, `ReceiptProvenance`,
  `ReceiptAnswers`), the two run locks (`RunLocks`, `RunLockObjects`), the two audit logs
  (`AuditLog`, `AuditFiles`, `AuditAnswers`), Manifest-S (`ManifestS`, `ManifestBuilder`,
  `ManifestAnswers`) and the signed mail block (`MailText`, `MailBlock`, `MailForgery`).

The modules named `Answers` state what each operation answers, and when, in terms of its inputs
and the stored state alone, beside the properties of whole runs.

Foreign functions are fields of a value handed to every function: hashes, case folding,
trimming, path resolution, JSON text. Where a property needs a fact about them (a digest
without collisions, hashes written as lower-case hexadecimal, written JSON that reads back),
the lemma says so in a `requires` clause; nothing is assumed silently. GitLab, mail,
signature checks and cloud scans are oracles that answer anything. Floats in JSON are not
part of this model.

## What the code does that its description might not lead one to expect

* A bundle that loads and installs is refused by the later check exactly when
  `source_manifest_s_digest` or `digest` in the manifest is not a string
  (`ReleaseCheck.RoundTrip`); a missing source digest is the simplest case
  (`ReleaseCheck.MissingSourceDigestRefused`).
* `rollback` does not look at the status of the deployment record. A deployment that died
  before its record became ACTIVE and was rolled back is pushed again by a replay exactly
  when the target had a `current` file before it; it then sits on top with its rollback already
  recorded COMPLETE and no rollback of it ever succeeds (`TargetUndo.ReplayAfterUndo`,
  `TargetHistory.StuckForever`, `TargetHistory.StuckRefused`).
* Receipt references are truncated digests. A collision makes the rollback fail, never undo
  something else (`TargetHistory.TopRollback` gives the exact condition).
* `RunOnceLock` leaves its registry key without a holder when reading the previous owner's
  metadata raises (text that is not UTF-8) or when closing the file does; `KernelRunLock` does
  when unlocking raises while a failed acquire unwinds, or when closing raises, as it may on a
  full disk after a failed write. When closing raised, its field keeps the closed file, and a
  `release` of that object gives the key back; otherwise no object of that process gets the
  lock again. These are the only ways in the model, where any call of the operating system may
  raise (`RunLocks.KeysHaveHolders`, `RunLocks.AbandonsExactly`, `RunLocks.BarredUntilRedeemed`,
  `RunLocks.AbandonedForever`, `RunLocks.StaleRedeems`, `RunLockObjects.AbandoningRuns`).
* Two threads that share one `RunOnceLock` are both told that they acquired it
  (`plugins/product-release-gate/src/release_gate_lock.py:41-42`); mutual exclusion is between
  lock objects.
* The file-per-entry audit chain stops verifying with entry 10,000,000,000, whose eleven-digit
  name sorts before shorter ones (`AuditFiles.OwnAppend`).
* The line log stops verifying when the text of an entry holds a character that `splitlines`
  breaks at (`AuditLog.WrittenLoads`).
* Building Manifest-S depends on the order of the bindings exactly when two different ones
  share logical name, SHA-256 and file name (`ManifestBuilder.OrderDoesNotMatter`).
* Repeating the import of an event that is built but not judged needs the final release, at any
  other time the tested directory, as it was (`GateImport.ImportHandoff`).
* The gate imports Manifest-S documents that the shared validator refuses, for instance
  without evidence references (`GateImport.ImporterTakesLess`).
* The artifact archive behind a verified receipt may hold members that the artifact manifest
  does not bind (`ReceiptProvenance.UnlistedMemberIgnored`).

## Model

| member | source | states |
|---|---|---|
| ReleaseFiles.ReadSourceItems | plugins/product-release-gate/src/filesystem_release_adapter.py:457-513 | the loop accepts exactly well-formed items with distinct folded names whose files have the claimed content, and returns their inventory |
| ReleaseFiles.LoadManifestBundle | plugins/product-release-gate/src/filesystem_release_adapter.py:417-535 | a bundle loads if and only if header, items and directory listing are acceptable |
| ReleaseAnswers.LoadableExactly | plugins/product-release-gate/src/filesystem_release_adapter.py:417-535 | field by field and file by file: a bundle loads if and only if its manifest is the one asked for, names an event and a directory, and that directory holds the listed files, with sizes and both hashes, and no others |
| ReleaseFiles.StageRelease | plugins/product-release-gate/src/filesystem_release_adapter.py:770-825 | staging copies the listed files and no others, and succeeds exactly when every copy has its listed size and hashes |
| ReleaseCheck.ReadManifestItems | plugins/product-release-gate/src/filesystem_release_adapter.py:665-693 | the manifest loop of the check accepts exactly well-formed, distinct items and indexes them |
| ReleaseCheck.ReadInventoryItems | plugins/product-release-gate/src/filesystem_release_adapter.py:723-757 | the inventory loop accepts exactly entries that the manifest lists and whose files match |
| ReleaseCheck.CheckRelease | plugins/product-release-gate/src/filesystem_release_adapter.py:633-768 | the check returns the inventory digest of exactly the installed releases whose documents, listing and contents agree |
| ReleaseCheck.TextFieldsVerify | plugins/product-release-gate/src/filesystem_release_adapter.py:633-825 | installing a loaded bundle whose two manifest fields are strings verifies with its inventory digest, whatever the hash |
| ReleaseCheck.RoundTrip | plugins/product-release-gate/src/filesystem_release_adapter.py:429-825 | installing any loaded bundle verifies with the bundle's own inventory digest if and only if the two manifest fields are strings, else it is refused |
| ReleaseCheck.MissingSourceDigestRefused | plugins/product-release-gate/src/filesystem_release_adapter.py:652-664 | a manifest without a source digest loads and is refused after installation |
| ReleaseCheck.AcceptedReleaseIsExact | plugins/product-release-gate/src/filesystem_release_adapter.py:633-768 | acceptance implies that manifest names, inventory names and files coincide with equal sizes and hashes |
| TargetInvariant.ChainStep | plugins/product-release-gate/src/filesystem_release_adapter.py:989-1016 | every orderly write is one push, one pop of the top or nothing, read off the chain of `previous_current` links |
| TargetInvariant.ChainFalls | plugins/product-release-gate/src/filesystem_release_adapter.py:989-1009 | along the chain, creation order strictly falls |
| TargetSoundness.LawfulKeepsSound | plugins/product-release-gate/src/filesystem_release_adapter.py:827-886 | every lawful write keeps the whole target invariant: served releases, agreeing bound fields, kept digests, ordered links |
| TargetPlans.PointerDigestInjective | plugins/product-release-gate/src/filesystem_release_adapter.py:848-886 | under a collision-free digest equal digests mean equal contents of `current`, absence included |
| TargetPlans.DeployLawful | plugins/product-release-gate/src/filesystem_release_adapter.py:888-1026 | from a sound target every write of every deployment is lawful, in every prefix |
| TargetPlans.RollbackLawful | plugins/product-release-gate/src/filesystem_release_adapter.py:1085-1235 | from a sound target every write of every rollback is lawful, in every prefix |
| TargetPlans.PlanLawful | plugins/product-release-gate/src/filesystem_release_adapter.py:888-1324 | the same for all five operations |
| TargetRuns.RunConsistent | plugins/product-release-gate/src/filesystem_release_adapter.py:240-303 | over every interleaved run of any number of processes, with crashes between any two writes, the invariant holds and the live chain is what the pushes and pops leave of an empty stack |
| TargetRuns.EventMovesOnce | plugins/product-release-gate/src/filesystem_release_adapter.py:926-1016 | one event is one push, one pop or no change, and only writes of `current` move the chain |
| TargetRuns.PointerVerifiable | plugins/product-release-gate/src/filesystem_release_adapter.py:827-846 | in every sound state, mid-crash included, `current` is absent, inactive, or serves an installed release that verifies, with an agreeing record |
| TargetRuns.ChainHasNoCycle | plugins/product-release-gate/src/filesystem_release_adapter.py:989-1007 | following `previous_current` meets no deployment twice |
| TargetHistory.RetiredForever | plugins/product-release-gate/src/filesystem_release_adapter.py:928-988 | a deployment once ACTIVE and popped is on the chain in no later state of any run |
| TargetHistory.TopRollback | plugins/product-release-gate/src/filesystem_release_adapter.py:1112-1235 | rolling back the top succeeds if and only if no receipt stands in its way, and then restores what lay below |
| TargetHistory.StuckForever | plugins/product-release-gate/src/filesystem_release_adapter.py:1159-1206 | a deployment on the chain with a COMPLETE rollback stays there over every later run |
| TargetHistory.StuckRefused | plugins/product-release-gate/src/filesystem_release_adapter.py:1194-1197 | rolling back such a deployment is refused |
| TargetHistory.TopIsVerifiable | plugins/product-release-gate/src/filesystem_release_adapter.py:1028-1083 | verify and readback succeed for the top deployment in every sound state and report its inventory |
| TargetHistory.RollbackIsVerifiable | plugins/product-release-gate/src/filesystem_release_adapter.py:1237-1289 | rollback verification succeeds if and only if the fields are those of a completed receipt and `current` is still what that rollback restored; it reports the inventory of the restored release and writes nothing |
| TargetRecovery.DeployConverges | plugins/product-release-gate/src/filesystem_release_adapter.py:926-1026 | after any number of attempts that died at any write, one more deploy succeeds and ends in the uninterrupted state up to timestamps |
| TargetRecovery.FreshOutcome | plugins/product-release-gate/src/filesystem_release_adapter.py:888-950 | a first deployment on a sound target succeeds exactly when its request is deployable |
| TargetUndo.RollbackConverges | plugins/product-release-gate/src/filesystem_release_adapter.py:1159-1226 | the same convergence for rollbacks |
| TargetUndo.UndoneIsVerifiable | plugins/product-release-gate/src/filesystem_release_adapter.py:1159-1289 | after a rollback of the top that died any number of times and was repeated, verifying the returned receipt succeeds and reports the inventory of the release below |
| TargetUndo.UndoAllEmpties | plugins/product-release-gate/src/filesystem_release_adapter.py:1207-1226 | repeated rollback goes through the whole chain, in as many calls as it is long, if and only if every deployment on it has no receipt or its own unfinished one and no two share a receipt; it then leaves nothing |
| TargetUndo.ReplayAfterUndo | plugins/product-release-gate/src/filesystem_release_adapter.py:939-988 | replaying a deployment that died and was rolled back succeeds exactly when the target had a `current` before; then it is stuck on top |
| TargetUndo.EmptyIsNotInactive | plugins/product-release-gate/src/filesystem_release_adapter.py:951-959 | a record made on a never-deployed target cannot be reconciled with an explicit inactive `current` |
| FilesystemAdapter.FilesystemReleaseAdapter.Put | plugins/product-release-gate/src/filesystem_release_adapter.py:136-158 | one atomic replacement, or death |
| FilesystemAdapter.FilesystemReleaseAdapter.InstallRelease | plugins/product-release-gate/src/filesystem_release_adapter.py:770-825 | stages and installs or reuses the release, and checks it either way |
| FilesystemAdapter.FilesystemReleaseAdapter.FirstDeployment | plugins/product-release-gate/src/filesystem_release_adapter.py:989-1026 | record, `current`, record: makes exactly the plan's writes as far as it lives |
| FilesystemAdapter.FilesystemReleaseAdapter.ReplayDeployment | plugins/product-release-gate/src/filesystem_release_adapter.py:928-988 | reconciles as the plan says, of which `TargetAnswers.ReplayAnswer` says when it succeeds |
| FilesystemAdapter.FilesystemReleaseAdapter.Deploy | plugins/product-release-gate/src/filesystem_release_adapter.py:888-1026 | follows the deployment plan, of which `TargetAnswers.DeployAnswer` says when it succeeds and what it leaves |
| FilesystemAdapter.FilesystemReleaseAdapter.Verify | plugins/product-release-gate/src/filesystem_release_adapter.py:1028-1083 | follows the verification plan, whose answer `TargetAnswers.VerifyAnswer` states |
| FilesystemAdapter.FilesystemReleaseAdapter.Rollback | plugins/product-release-gate/src/filesystem_release_adapter.py:1085-1235 | follows the rollback plan, whose answer `TargetAnswers.RollbackAnswer` states |
| FilesystemAdapter.FilesystemReleaseAdapter.VerifyRollback | plugins/product-release-gate/src/filesystem_release_adapter.py:1237-1289 | decides as the rollback verification plan, of which `RollbackIsVerifiable` says when it succeeds and what it reports |
| FilesystemAdapter.FilesystemReleaseAdapter.Readback | plugins/product-release-gate/src/filesystem_release_adapter.py:1291-1324 | follows the readback plan, whose answer `TargetAnswers.ReadbackAnswer` states |
| TargetAnswers.AcceptableExactly | plugins/product-release-gate/src/filesystem_release_adapter.py:888-925 | what is asked of a deployment before the target is looked at, spelled out |
| TargetAnswers.FreshAnswer | plugins/product-release-gate/src/filesystem_release_adapter.py:926-1026 | a first deployment succeeds exactly when its release is there or can be installed, and then is on top, served and ACTIVE |
| TargetAnswers.ReplayAnswer | plugins/product-release-gate/src/filesystem_release_adapter.py:928-988 | a repeated deployment succeeds exactly for its own record while `current` shows it, or, if it died before it was ACTIVE, still shows what was there before |
| TargetAnswers.DeployAnswer | plugins/product-release-gate/src/filesystem_release_adapter.py:888-1026 | on every sound target: when a deployment succeeds, and that it is then on top, served with the reported inventory and ACTIVE for that very pointer; repeating an ACTIVE one writes nothing |
| TargetAnswers.ActiveRepeat | plugins/product-release-gate/src/filesystem_release_adapter.py:944-988 | repeating an ACTIVE deployment succeeds if and only if it is on top |
| TargetAnswers.VerifyAnswer | plugins/product-release-gate/src/filesystem_release_adapter.py:1028-1083 | verification succeeds exactly for the recorded fields of the deployment on top, and reports the inventory that is served |
| TargetAnswers.ReadbackAnswer | plugins/product-release-gate/src/filesystem_release_adapter.py:1291-1324 | readback succeeds exactly for the digest that is live, and says whose it is |
| TargetAnswers.RollbackAnswer | plugins/product-release-gate/src/filesystem_release_adapter.py:1085-1235 | a rollback succeeds exactly for the top with no receipt or its own, or for one already put back whose `current` still shows it; then `current` is what lay below and the receipt complete |
| GateRuns.RunKeepsEvent | plugins/product-release-gate/src/release_gate_core.py:1061-1239 | over every run, files and stored manifests changed at will, the release phase has a passed test and the approval its risk level needs, so R-08 cannot fail there, and the history is a connected path ending at the status |
| GateRuns.ReadyIsFinal | plugins/product-release-gate/src/release_gate_core.py:1462-1465 | RELEASE_READY is absorbing with the event unchanged |
| GateRuns.ReleaseHistory | plugins/product-release-gate/src/release_gate_core.py:422-427 | the history of a built or released event ends with test, approval and build in that order, with no return to SUBMISSION_BLOCKED after the test |
| GateEvidence.ReadyIsEarned | plugins/product-release-gate/src/release_gate_core.py:1462-1614 | a RELEASE_READY verdict proves: the original submission, every submitted artifact present with its hashes and nothing else listed, services agreeing, approval and rollback in place |
| GateEvidence.RunKeepsDocuments | plugins/product-release-gate/src/release_gate_core.py:1477-1505 | without forged manifests the submission stays frozen and R-01 holds in every built state |
| GateEvidence.SourceDigestInjective | plugins/product-release-gate/src/release_gate_core.py:64-66 | a Manifest-S digest determines the artifacts |
| GateProducer.ProducerSatisfiesChecker | plugins/product-release-gate/src/release_gate_core.py:1339-1614 | what a build leaves is judged RELEASE_READY if and only if services agree and a rollback is named, else RELEASE_BLOCKED, never SUBMISSION_BLOCKED, by either gate, whatever links lead to the directory |
| GateProducer.BuildSatisfiesHardened | plugins/product-release-gate/src/release_gate_hardened.py:29-147 | rules R-01 to R-05 of the hardened gate hold of a fresh build, also where its directory is reached through links |
| GateProducer.CopyReads | plugins/product-release-gate/src/release_gate_core.py:1376-1402 | read through its listed path, which may pass through links, every copy has the content and hashes of its source |
| GateDisk.PlaceIsFinal | plugins/product-release-gate/src/release_gate_hardened.py:62-74 | resolving a resolved path changes nothing |
| GateProducer.BuildKeepsContent | plugins/product-release-gate/src/release_gate_core.py:1376-1402 | rules R-02 to R-05 of the base gate hold of a fresh build |
| GateProducer.PublishedListing | plugins/product-release-gate/src/release_gate_core.py:1376-1419 | the published directory holds the artifacts by name and nothing else |
| GateReplay.RebuildIsSame | plugins/product-release-gate/src/release_gate_core.py:1251-1336 | building again returns the manifest that was built and changes nothing |
| GateReplay.FailedBuildRetries | plugins/product-release-gate/src/release_gate_core.py:1425-1438 | a build that raised leaves event and disk as they were, so a retry does what the first call would have done |
| GateReplay.AllBuildsAgree | plugins/product-release-gate/src/release_gate_core.py:1403-1417 | all successful builds of one submission into one directory, over any two runs, have the same artifacts and digest |
| GateHandoff.BuiltReleaseDeploys | plugins/product-release-gate/src/release_gate_core.py:1403-1424 | the manifest a build writes loads in the filesystem adapter under its digest, whatever links lead to the directory, and installing it verifies |
| GateController.PrepareArtifacts | plugins/product-release-gate/src/release_gate_core.py:493-522 | accepts exactly portable, case-insensitively distinct names of present files and freezes them |
| GateController.ReleaseGateController.CreateSubmission | plugins/product-release-gate/src/release_gate_core.py:468-555 | creates the event exactly for acceptable input, with its origin, and what it creates is a new case in the sense of the run theorems |
| GateController.SubmissionEntries | plugins/product-release-gate/src/release_gate_core.py:1066-1119 | all submission rules pass exactly when the submission passes |
| GateController.ContentEntries | plugins/product-release-gate/src/release_gate_core.py:1538-1570 | R-05 to R-07 fail exactly for a listed file that drifted or is not cleared |
| GateController.ReleaseEntries | plugins/product-release-gate/src/release_gate_core.py:1472-1591 | the collected results fail exactly where the base rules do, and drift rules fail exactly on drift |
| GateController.HardenedEntries | plugins/product-release-gate/src/release_gate_hardened.py:29-171 | the same for the hardened rules with the directory listing |
| GateController.CopyArtifacts | plugins/product-release-gate/src/release_gate_core.py:1376-1402 | staged copies are exactly the published files, and unsafe names are refused |
| GateController.CleanupRestores | plugins/product-release-gate/src/release_gate_core.py:1425-1438 | removing a just published directory brings the old disk back |
| GateController.CheckFinal | plugins/product-release-gate/src/release_gate_core.py:1251-1325 | the replay check passes exactly for intact final material |
| GateController.SaveFrame | plugins/product-release-gate/src/release_gate_core.py:410-411 | saving one event leaves the documents of every other event alone |
| GateController.ReleaseGateController.RunSubmissionGate | plugins/product-release-gate/src/release_gate_core.py:1061-1134 | does what the case function for the submission gate says, whose outcomes `GateAnswers.SubmissionAnswer` states, and touches no other event |
| GateController.ReleaseGateController.RecordTestResult | plugins/product-release-gate/src/release_gate_core.py:1136-1211 | does what the case function for test results says, whose outcomes `GateAnswers.TestAnswer` states, and touches no other event |
| GateController.ReleaseGateController.RecordTestApproval | plugins/product-release-gate/src/release_gate_core.py:1213-1239 | does what the case function for approvals says, whose outcomes `GateAnswers.ApprovalAnswer` states, and touches no other event |
| GateController.ReleaseGateController.BuildFinalRelease | plugins/product-release-gate/src/release_gate_core.py:1241-1449 | does what the case function for builds and their replay says, of which `GateAnswers.BuildAnswer` and `GateAnswers.RebuildExactly` say when they go through, and touches no other event |
| GateController.ReleaseGateController.PublishFinal | plugins/product-release-gate/src/release_gate_core.py:1337-1449 | stage, publish, save manifest, save event, with clean-up on failure |
| GateController.ReleaseGateController.RunReleaseGate | plugins/product-release-gate/src/release_gate_core.py:1462-1614 | does what the case function for both release gates says, whose verdicts `GateAnswers.VerdictAnswer` states, and touches no other event |
| GateAnswers.SubmissionAnswer | plugins/product-release-gate/src/release_gate_core.py:1061-1134 | after any run: a submission goes to test if and only if it is the original one with its frozen hashes, allowed extensions and source references, cleared by both services, and nothing unchanged unless allowed; else it is blocked |
| GateAnswers.TestAnswer | plugins/product-release-gate/src/release_gate_core.py:1136-1211 | where each test result leads, by risk level |
| GateAnswers.ApprovalAnswer | plugins/product-release-gate/src/release_gate_core.py:1213-1239 | where a grant and a refusal lead, and that both need a reference |
| GateAnswers.BuildAnswer | plugins/product-release-gate/src/release_gate_core.py:1337-1449 | after any run without forged manifests: a build goes through if and only if a directory is named, nothing is there, every submitted file is unchanged and every name portable |
| GateAnswers.RebuildAnswer | plugins/product-release-gate/src/release_gate_core.py:1241-1336 | in every other status nothing is built, and only a built event has an answer: its manifest |
| GateAnswers.RebuildExactly | plugins/product-release-gate/src/release_gate_core.py:1251-1325 | asking again succeeds exactly while the directory is real and holds the submitted names and content and nothing else |
| GateAnswers.VerdictAnswer | plugins/product-release-gate/src/release_gate_core.py:1462-1614 | after any run without forged manifests: SUBMISSION_BLOCKED if and only if the release is no longer as submitted (or, hardened, the directory shows anything else), else RELEASE_READY if and only if both services clear every name and a rollback is named, else RELEASE_BLOCKED |
| GateAnswers.CleanRelease | plugins/product-release-gate/src/release_gate_core.py:1061-1614 | the whole way: a clean submission, approved where its risk needs it and built into a new directory, is released by either gate |
| GateImport.ImportHandoff | plugins/product-release-gate/src/release_gate_core.py:557-900 | a first import succeeds exactly for importable documents with exactly matching tested material and gives a new case; a repeated one returns the stored event exactly when it asks for the same and the material is still there, and never changes it |
| ImportAnswers.ImportableExactly | plugins/product-release-gate/src/release_gate_core.py:588-683 | the documents an import takes, spelled out: the right event, round, task and module under their own digest, with policy, checks and files whose names stay apart when case is ignored |
| ImportAnswers.TestedExactly | plugins/product-release-gate/src/release_gate_core.py:787-824 | the tested directory is real and holds exactly the listed files, plain and with the listed size and hashes |
| ImportAnswers.ImportedMeans | plugins/product-release-gate/src/release_gate_core.py:843-888 | what a first import stores: the request's risk and rollback, the files where they were tested, nothing of a test, approval or release |
| GateImport.ReplayIsSame | plugins/product-release-gate/src/release_gate_core.py:715-764 | after any run without forged manifests a second import is a repetition if and only if it brings the same document, risk, rollback, source, rule snapshot and places of the tested files; else it is a conflict |
| GateImport.AcceptedFixesDigest | plugins/product-release-gate/src/release_gate_core.py:715-757 | one document and one place for each tested file fix the Manifest-S digest of every event for which the import is accepted |
| GateImport.ReplayAfterBuild | plugins/product-release-gate/src/release_gate_core.py:759-785 | between build and verdict a repeated import needs the built release only, even with the tested directory gone; it is a repetition if and only if the tested files resolve to the same places |
| GateImport.CheckTested | plugins/product-release-gate/src/release_gate_core.py:787-824 | the material check passes exactly when the directory holds the bound files with the bound content |
| GateImport.ValidIsImportable | plugins/product-release-gate/src/release_gate_core.py:588-683 | whatever the shared validator accepts, the importer accepts for a matching request, reading the same materials |
| GateImport.ImporterTakesLess | plugins/product-release-gate/src/release_gate_core.py:625-634 | the importer accepts documents without evidence that the validator refuses |
| GateImport.ImportedIsIntact | plugins/product-release-gate/src/release_gate_core.py:699-713 | imported sources are where the event says, with the frozen hashes, on any disk whose links lead to real places |
| PreReleaseRuns.RunKeepsWorld | plugins/pre-release/src/pre_release_controller.py:200-496 | over every run with any answers and deaths: a stored request implies GATE_RUNNING or SENT, is the one its intent determines, and nothing frozen, mailed or finished changes |
| PreReleaseRuns.OneMessage | plugins/pre-release/src/pre_release_controller.py:706-781 | any two mails attempted for a request are equal in Message-ID, subject, payload and signature; a sent one was mailed and holds its receipt |
| PreReleaseRuns.FrozenForever | plugins/pre-release/src/pre_release_controller.py:291-337 | intent and request never change once set, and PRERELEASE_SENT is terminal |
| PreReleaseRuns.CreateLawful | plugins/pre-release/src/pre_release_controller.py:200-496 | every save and mail attempt of `create_request` is lawful, in every prefix |
| PreReleaseConvergence.MessageIdNamesMail | plugins/pre-release/src/pre_release_controller.py:71-78 | over every run two mails share a Message-ID if and only if they are the same mail |
| PreReleaseConvergence.RetriesConverge | plugins/pre-release/src/pre_release_controller.py:366-496 | any two continuations of a frozen intent with a truthful gate, whatever fails on the way, come to the same digest, key, Message-ID, payload and signature; the digest is derived from the frozen document and the places of the tested files |
| PreReleaseConvergence.BuildStartsFrom | plugins/pre-release/src/pre_release_controller.py:366-400 | a build of an event that accepted the import of a call starts from the sources of that import |
| PreReleaseRecovery.RepeatSettles | plugins/pre-release/src/pre_release_controller.py:339-496 | a repeat that the services answer ends SENT, from whatever state earlier calls left, and touches no other request |
| PreReleaseRecovery.CrashConverges | plugins/pre-release/src/pre_release_controller.py:298-496 | a call that died anywhere and is repeated ends with the stored state of the uninterrupted call |
| PreReleaseController.PreReleaseController.CreateRequest | plugins/pre-release/src/pre_release_controller.py:200-496 | makes exactly the saves and mail attempts of the plan as far as it lives, with its result; the `PreReleaseAnswers` lemmas state what the plan answers to each status of the gate |
| PreReleaseAnswers.ApprovalStops | plugins/pre-release/src/pre_release_controller.py:366-443 | TEST_APPROVAL_REQUIRED stops the call: that is stored and returned, no request is stored, no mail attempted |
| PreReleaseAnswers.OtherStatusBlocks | plugins/pre-release/src/pre_release_controller.py:425-450 | any other status that is not ready blocks the task under the very text the gate gave, and the call raises |
| PreReleaseAnswers.SilentGateStops | plugins/pre-release/src/pre_release_controller.py:366-424 | a gate that fails or names no status stops the call before anything is built or mailed |
| PreReleaseAnswers.ReadyStatusBuilds | plugins/pre-release/src/pre_release_controller.py:443-496 | a ready status stores TEST_PASSED and asks for the build; a usable answer stores the one request and attempts exactly its mail, any other ends the call without either |
| PreReleaseAnswers.EarlyAnswer | plugins/pre-release/src/pre_release_controller.py:200-337 | calls that end before the gate is asked store and mail nothing, but for another attempt at a request that is stored |
| PreReleaseAnswers.FailAnswer | plugins/pre-release/src/pre_release_controller.py:227-273 | a FAIL call needs a reason, is refused once an intent is frozen, else ends TEST_FAILED; nothing is mailed |
| PreReleaseController.PreReleaseController.SendPrereleaseRequest | plugins/pre-release/src/pre_release_controller.py:706-781 | the same for one mail attempt and its receipt |
| PreReleaseAnswers.SendAnswer | plugins/pre-release/src/pre_release_controller.py:706-781 | a stored request is mailed at most once per attempt, exactly where the badges agree, and is SENT if and only if the service confirms its Message-ID |
| PreReleaseController.PreReleaseController.RetryAll | plugins/pre-release/src/pre_release_controller.py:144-162 | attempts every pending request once, with counters that add up, and amounts to a run of the model |
| PreReleaseController.PreReleaseController.StoreAll | plugins/pre-release/src/pre_release_controller.py:163-172 | stores new submissions and leaves known ones alone |
| PreReleaseController.PreReleaseController.RunOnce | plugins/pre-release/src/pre_release_controller.py:122-184 | retries, then new mail, as one run of the model |
| PreReleaseController.EachRetriedOnce | plugins/pre-release/src/pre_release_controller.py:144-162 | after the retry loop every stored entry is as after exactly one retry, or untouched |
| RunnerActivation.Provision | plugins/gitlab/src/gitlab_mcp.py:2395-2486 | against any environment: `paused=false` is sent at most once and only right after service, online and receipt checks; any return other than ready was preceded by a pause command and the latest one paused; `paused: True` is only reported after an attestation; and the outcome is the one the answers call for |
| RunnerActivation.RunnerTools.Resume | plugins/gitlab/src/gitlab_mcp.py:2488-2554 | a resumed registration keeps the same fail-closed promises, and its outcome is the one the answers call for |
| RunnerActivation.RunnerTools.Activate | plugins/gitlab/src/gitlab_mcp.py:2264-2393 | an activation keeps them too: ready means it ended with the unpausing, the active attestation and the journal; every failure stage and every raise is traced to the answer that caused it |
| RunnerActivation.RunnerTools.ConfirmRunnerPaused | plugins/gitlab/src/gitlab_mcp.py:2228-2236 | sends the pause, and confirms only what a later read attested |
| RunnerActivation.RunnerTools.PausedFailure | plugins/gitlab/src/gitlab_mcp.py:2248-2262 | ends paused and never reports more than was attested |
| RunnerActivation.RunnerTools.WaitForOnline | plugins/gitlab/src/gitlab_mcp.py:1886-1906 | polls without touching the pause; finds the runner online in the last round, or gives up only after all its rounds, none of which attested it online |
| RunnerActivation.LetGoUnpausesOnce | plugins/gitlab/src/gitlab_mcp.py:2357-2368 | after the three guarding calls the one unpausing is guarded |
| RunnerTraces.FailClosedAfter | plugins/gitlab/src/gitlab_mcp.py:2264-2393 | calls that keep the runner paused before a fail-closed part make a fail-closed whole |
| RunnerAnswers.FineSucceeds | plugins/gitlab/src/gitlab_mcp.py:2264-2554 | when no call failed, the service was as each step asks and the runner online and as last told, activation, resuming and provisioning all end with the runner active, or registered and paused where the policy wants no service |
| RunnerAnswers.ExplainedAfter | plugins/gitlab/src/gitlab_mcp.py:2395-2554 | an activation explained by its answers explains the longer operation it ends |
| GateReceipt.ArchivePayloads | plugins/product-release-gate/scripts/verify_gitlab_svn_gate_receipt.py:334-378 | accepts exactly bounded archives of safe, distinct, non-empty members and returns them by path |
| GateReceipt.PayloadKeys | plugins/product-release-gate/scripts/verify_gitlab_svn_gate_receipt.py:334-378 | a path is among the payloads exactly when a file member has it |
| GateReceipt.SuffixIsRootRelative | plugins/product-release-gate/scripts/verify_gitlab_svn_gate_receipt.py:381-394 | suffix search and lookup relative to the manifest's directory find the same member |
| ReceiptVerdict.ReadFiles | plugins/product-release-gate/scripts/verify_gitlab_svn_gate_receipt.py:439-478 | the loop accepts exactly distinct bindings that the archive meets and collects the covered ones |
| ReceiptVerdict.ValidateArtifactManifest | plugins/product-release-gate/scripts/verify_gitlab_svn_gate_receipt.py:407-491 | passes exactly for manifests that bind the archive |
| ReceiptVerdict.ReadStages | plugins/product-release-gate/scripts/verify_gitlab_svn_gate_receipt.py:506-518 | the stage map is built exactly from distinctly named stages |
| ReceiptVerdict.ValidateGateResult | plugins/product-release-gate/scripts/verify_gitlab_svn_gate_receipt.py:494-533 | a verdict is returned exactly for results whose stages support it |
| ReceiptProvenance.ReadEvidence | plugins/product-release-gate/scripts/verify_gitlab_svn_gate_receipt.py:597-612 | finds the three documents exactly when they are unique, readable and bound |
| ReceiptProvenance.VerifyGitlabReceipt | plugins/product-release-gate/scripts/verify_gitlab_svn_gate_receipt.py:536-672 | a receipt is issued if and only if event id, claim, run, archive and evidence hold, and names the normalised claim, pipeline, job and commit, the verdict and the hashes of that evidence |
| ReceiptAnswers.FramedExactly | plugins/product-release-gate/scripts/verify_gitlab_svn_gate_receipt.py:133-585 | claim, locator, handoff and GitLab's answers are in order if and only if one pipeline, job, commit, report and message exist that all of them are about, spelled out field by field |
| ReceiptAnswers.ProvenExactly | plugins/product-release-gate/scripts/verify_gitlab_svn_gate_receipt.py:494-650 | result, attestation and run agree if and only if the stages support a verdict, the run ended as it says, and the attestation is about this run and these files |
| ReceiptAnswers.ManifestExactly | plugins/product-release-gate/scripts/verify_gitlab_svn_gate_receipt.py:407-491 | an artifact manifest is accepted if and only if every file it lists is a member with that size and hash, each listed once, result and attestation among them, under both digests |
| ReceiptAnswers.ApprovalFixes | plugins/product-release-gate/scripts/verify_gitlab_svn_gate_receipt.py:70-85 | one approval binding approves one event, Manifest-R, report, request and message; one request digest is of one request |
| ReceiptProvenance.EvidenceIsBound | plugins/product-release-gate/scripts/verify_gitlab_svn_gate_receipt.py:441-491 | the judged result and attestation are the members the manifest binds by path, size and hash, and the attested digest covers the rest |
| ReceiptProvenance.CoveredExactly | plugins/product-release-gate/scripts/verify_gitlab_svn_gate_receipt.py:471-484 | the covered bindings are all but the attestation's own |
| ReceiptProvenance.SnapshotFixesFiles | plugins/product-release-gate/scripts/verify_gitlab_svn_gate_receipt.py:479-484 | one attested digest fixes the covered files |
| ReceiptProvenance.VerdictIsHonest | plugins/product-release-gate/scripts/verify_gitlab_svn_gate_receipt.py:613-671 | of every issued receipt: the file whose hash it names is the gate result beside the named manifest, and read from it, CLEAN means all mandatory stages CLEAN and both runs successful, BLOCKED a blocked stage and both failed |
| ReceiptProvenance.UnlistedMemberIgnored | plugins/product-release-gate/scripts/verify_gitlab_svn_gate_receipt.py:407-491 | an unlisted member under another name changes nothing |
| RunLocks.RunKeeps | plugins/product-release-gate/src/release_gate_lock.py:40-129 | over every interleaving with any failing calls, closing included, file lock and registries agree with what lock objects hold |
| RunLocks.MutualExclusion | plugins/rd-flywheel/src/rd_flywheel_lock.py:28-65 | at most one lock object of any process is inside, for both designs; two threads sharing one object are one agent |
| RunLocks.NoKeyWhenOut | plugins/product-release-gate/src/release_gate_lock.py:46-56 | a lock object whose call ended holds no registry key |
| RunLocks.KeysHaveHolders | plugins/rd-flywheel/src/rd_flywheel_lock.py:34-65 | a registry key has no holder at the end of a run if and only if an abandoning step left it behind and no later release of a stale object gave it back |
| RunLocks.AbandonsExactly | plugins/product-release-gate/src/release_gate_lock.py:56-129 | which steps abandon a key, for each design, and which one gives it back |
| RunLocks.BarredUntilRedeemed | plugins/rd-flywheel/src/rd_flywheel_lock.py:28-31 | until then no lock object of the process is inside |
| RunLocks.AbandonedForever | plugins/product-release-gate/src/release_gate_lock.py:46-49 | with no stale object in the process that is forever; `RunLocks.OnceIsNeverStale` says `RunOnceLock` has none |
| RunLocks.OnceIsNeverStale | plugins/product-release-gate/src/release_gate_lock.py:119-123 | the handle field is emptied before anything can raise |
| RunLocks.StaleRedeems | plugins/rd-flywheel/src/rd_flywheel_lock.py:56-65 | releasing an object whose field still holds a closed file gives the key back and leaves it with nobody |
| RunLocks.FreeLockIsTaken | plugins/rd-flywheel/src/rd_flywheel_lock.py:28-45 | a free lock is obtained by an object whose calls succeed |
| RunLockObjects.LockObject.AcquireRunOnce | plugins/product-release-gate/src/release_gate_lock.py:40-74 | acquires exactly when free and all calls succeed, answers busy or raises in exactly the other cases, and leaves the key behind exactly when reading fails or writing and closing do |
| RunLockObjects.LockObject.AcquireKernelRun | plugins/rd-flywheel/src/rd_flywheel_lock.py:28-54 | the same for the other order of steps, with what the handle field holds afterwards |
| RunLockObjects.LockObject.UnwindKernelRun | plugins/rd-flywheel/src/rd_flywheel_lock.py:46-54 | unwinding frees the file always, the registry exactly when neither unlocking nor closing raises, and empties the handle field exactly when closing does not |
| RunLockObjects.LockObject.ReleaseHandle | plugins/product-release-gate/src/release_gate_lock.py:119-129 | the file is free afterwards even when unlocking raises, the registry exactly when closing does not |
| RunLockObjects.LockObject.Release | plugins/rd-flywheel/src/rd_flywheel_lock.py:56-65 | releases what is held and nothing else; on a closed file it gives the key back |
| RunLockObjects.UnreadableOwner | plugins/product-release-gate/src/release_gate_lock.py:55-63 | the run in which unreadable metadata leaves the key behind, step by step |
| RunLockObjects.AbandoningRuns | plugins/rd-flywheel/src/rd_flywheel_lock.py:44-65 | a failed write, then a failed unlock: the key stays for good; or a failed close: it stays until the object is released |
| AuditLog.SplitJoin | shared/release_workflow_core/audit.py:32-33 | unbroken lines survive joining and splitting |
| AuditLog.LoadEntries | shared/release_workflow_core/audit.py:47-64 | the loading loop returns exactly verified chains |
| AuditLog.WrittenLoads | shared/release_workflow_core/audit.py:24-34 | a written log loads as written if and only if no entry text holds a line break of `splitlines`, else not at all |
| AuditLog.HeadFixesHistory | shared/release_workflow_core/audit.py:66-91 | two non-empty verified logs with the same head have the same length and the same time and record everywhere |
| AuditLog.JsonlAuditLog.Append | shared/release_workflow_core/audit.py:24-34 | extends a verified log by the one built entry, or changes nothing |
| AuditLog.JsonlAuditLog.VerifyCheckpoint | shared/release_workflow_core/audit.py:42-45 | a checkpoint passes exactly for the current count and head |
| AuditAnswers.EntryExactly | shared/release_workflow_core/audit.py:66-91 | when an entry of the line log is accepted, spelled out |
| AuditAnswers.TamperedLog | shared/release_workflow_core/audit.py:89-91 | an entry exchanged for another under its keyed digest is accepted exactly when they are the same but for that digest |
| AuditFiles.NameOrder | plugins/pre-release/src/pre_release_audit.py:55-56 | within ten digits the order of names is the order of numbers |
| AuditFiles.FirstLongName | plugins/pre-release/src/pre_release_audit.py:55-56 | the first eleven-digit name sorts before a smaller number's |
| AuditFiles.AppendValidIff | plugins/pre-release/src/pre_release_audit.py:31-59 | append gives a verifying chain with one more entry if and only if the new name sorts last |
| AuditFiles.OwnAppend | plugins/pre-release/src/pre_release_audit.py:31-59 | for chains written by append alone that is exactly while the number fits ten digits |
| AuditFiles.SecretIntroduced | plugins/pre-release/src/pre_release_audit.py:48-53 | verifying without a secret is verifying with any, of a chain unsigned throughout, so signing may start later |
| AuditFiles.LastHashFixesHistory | plugins/pre-release/src/pre_release_audit.py:61-107 | the last hash of a chain that is not empty fixes its length and every record |
| AuditFiles.AuditChain.Verify | plugins/pre-release/src/pre_release_audit.py:61-107 | the loop accepts exactly valid chains and returns count and last hash |
| AuditFiles.AuditChain.Append | plugins/pre-release/src/pre_release_audit.py:31-59 | adds the next record to a valid chain, or changes nothing |
| AuditAnswers.RecordExactly | plugins/pre-release/src/pre_release_audit.py:73-105 | when a record of the file chain is accepted, spelled out, the signature over its fields, hash and mode included |
| AuditAnswers.TamperedChain | plugins/pre-release/src/pre_release_audit.py:92-99 | a signed record put in the place of another under its signature leaves a valid chain exactly when nothing it records was changed |
| ManifestS.ReadMaterials | shared/release_workflow_core/gate_adapter_contract.py:206-254 | the loop accepts exactly well-formed artifacts with unique names |
| ManifestS.ValidateManifestS | shared/release_workflow_core/gate_adapter_contract.py:181-287 | accepts exactly documents already in canonical form that say what the caller expects, and returns them |
| ManifestAnswers.ValidIsWritten | shared/release_workflow_core/gate_adapter_contract.py:181-287 | the validator accepts exactly the documents that can be written from a submission with evidence over sound, uniquely named files |
| ManifestS.IncreasingIsSorted | shared/release_workflow_core/validation.py:185-186 | sorted distinct references are their own normal form |
| ManifestBuilder.ReadBindings | shared/release_workflow_core/manifest.py:111-130 | the loop normalises exactly acceptable bindings |
| ManifestBuilder.BuildManifestS | shared/release_workflow_core/manifest.py:37-63 | builds the document of the sorted bindings, or refuses bad input |
| ManifestBuilder.SortedTies | shared/release_workflow_core/manifest.py:131 | the sorting is stable |
| ManifestBuilder.SortIgnoresOrder | shared/release_workflow_core/manifest.py:131 | every order of any list of bindings sorts alike if and only if bindings with the same key are equal |
| ManifestBuilder.OrderDoesNotMatter | shared/release_workflow_core/manifest.py:37-63 | every order of the bindings builds the same document if and only if bindings with the same key are equal |
| ManifestBuilder.TiesKeepOrder | shared/release_workflow_core/manifest.py:131 | for two different bindings with one key there is an order that sorts differently |
| ManifestBuilder.BuilderMeetsValidator | shared/release_workflow_core/manifest.py:37-63 | a built document validates unchanged if and only if there is evidence and the bindings are sound and uniquely named; then order does not matter |
| MailText.PaddingArithmetic | shared/release_workflow_core/mail_contract.py:238 | `-len % 4` of the stripped length is the padding of section 5 of RFC 4648 |
| MailText.RepaddingRestores | shared/release_workflow_core/mail_contract.py:228-240 | stripping and re-padding an encoding gives it back |
| MailText.BlockRoundTrip | shared/release_workflow_core/mail_contract.py:228-246 | the block is found behind any lines free of the begin marker and gives back its bytes |
| MailBlock.SignedVerifies | shared/release_workflow_core/mail_contract.py:147-225 | what is signed under a trimmed key id verifies, and the rest of the payload is kept |
| MailBlock.HeadersRoundTrip | shared/release_workflow_core/mail_contract.py:117-134 | rendered headers agree with the payload if and only if they are trimmed and no other classification is claimed |
| MailBlock.MailRoundTrip | shared/release_workflow_core/mail_contract.py:69-114 | a rendered mail, signed or not, parses to the rendered payload with its own mark if and only if its headers are trimmed and no other classification is claimed than the one shown, else it is refused as drift |
| MailForgery.SignedAnswer | shared/release_workflow_core/mail_contract.py:94-114 | a payload with `auth` gets past authentication if and only if it names contract and algorithm and its value is the keyed digest, under a known secret of at least 32 bytes, of everything but that value and `hmac_sha256`; then headers decide |
| MailForgery.LegacyAnswer | shared/release_workflow_core/mail_contract.py:216-225 | the same for a payload with `hmac_sha256` only, under the secret named `default` of any length |
| MailForgery.UnsignedAnswer | shared/release_workflow_core/mail_contract.py:172-188 | a payload that claims no signature is never taken for verified |
| MailForgery.BlockAnswer | shared/release_workflow_core/mail_contract.py:234-246 | a mail is refused as without a block exactly when no object can be read from it |
| MailForgery.HeadersMean | shared/release_workflow_core/mail_contract.py:249-264 | agreement of the headers, header by header |
| MailForgery.TamperedIsRefused | shared/release_workflow_core/mail_contract.py:190-214 | beside an authenticated mail, another under the same key and value is refused if and only if it differs in anything the signature covers |
| MailForgery.LegacyIsFixed | shared/release_workflow_core/mail_contract.py:216-224 | the same for mails without `auth` |
| MailForgery.FormsDoNotMix | shared/release_workflow_core/mail_contract.py:190-225 | a digest that authenticates a mail in one form authenticates none in the other |

## Left out

- GateHandoff.BuiltReleaseDeploys: the name of the output directory is taken to be one that trimming leaves alone, hashes to be written in lower-case hexadecimal, and the adapter to resolve paths on the disk that the build left.
- GateImport.ReplayIsSame: takes the digest in the first document to be a JSON string, as no other value has a text of that shape.
- PreReleaseConvergence.RetriesConverge: the gate may fail or stay silent but not lie about a build, and the tested files resolve to the same places whenever their import is accepted; against a lying gate only the one-message property holds.
- ManifestAnswers.ValidIsWritten: takes trimming to be idempotent and digests to be lower-case hexadecimal.
- AuditLog.JsonlAuditLog.Append: takes trimming to be idempotent on the given time.
- Target lock time-out: waiting for the operation lock either ends with the lock or with an error before anything is written.
- Directory creation, fsync and atomic replacement: a write is atomic. Path texts are absolute and normalised with `/` between their parts; links are part of the gate's disk, while the adapter takes the resolved text of a path; the case folding of Windows path comparisons is not part of this model.
- A kernel lock held a little longer by the traceback of a raised exception, and KeyboardInterrupt: in `RunLocks` the step that raises gives the file lock back at once.
- Authorization of a deployment: the signed credential is one boolean of the request.
- Release gate report text and execution receipts: no rule reads them back.
- A hard kill inside the final build between publishing and saving the event: the gate's operations end or raise and clean up, as the build's own handler does.
- Clean-up of a failed build that itself fails: the directory then stays and the next build refuses it.
- Test command, signature and cloud scan adapters: oracles.
- Bindings that a caller may expect of a parsed mail: compared as text, field by field, once authentication and headers passed.
- Parsing of incoming mail into stored submissions: submissions arrive parsed.
- The run lock of the pre-release plugin: calls are sequential.
- Audit entries written by the pre-release controller: a failing append is a death between two saves.
- HMAC of the stored pre-release state and the tampering it detects: stored state is read as it was saved.
- GitLab HTTP, PowerShell and service-manager details: each call has an answer or raises.
- Windows service command-line parsing: whether the image matches is part of the answer.
- The policy file and access levels of Runners: the policy is given.
- The GitLab gate result of the adapter contract and Manifest-R of the shared core: comparisons of fields.
- Base64 digits: the encoding is any function with the shape and inverse of section 5 of RFC 4648.
- Subjects of rendered mails and expected bindings on parsing: comparisons of fields.
- Processes that fold two different paths to one registry key: each model has one lock path.
- The production controller, setup, schedulers, command lines and generated documentation.
