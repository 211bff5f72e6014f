# Verification of the governed execution substrate

A Dafny model of `runtime_core`, with proofs. `dafny verify dfyconfig.toml` checks all of it.

The model covers these parts, one module or a few for each:

- **Patch engine** (`TextLines`, `Workspace`, `AtomicCommit`, `PatchPlan`, `PatchExecution`,
  `PatchValidation`). An IDE request carries patches. They are validated, planned on a virtual overlay of
  the files, and committed by staging, backing up and activating, with a rollback. The workspace is a tree of files and
  directories, in which a commit makes directories. A fault may strike at any forward file operation.
- **Operation ledger** (`OperationLedger`, `LedgerProjection`, `LedgerWarnings`, `LedgerProtocol`,
  `LedgerHandlers`, `LedgerDecisions`). The handlers write an append-only ledger. A fold projects it, and
  scans search it. `LedgerProtocol` is a state machine of threads that allocate an id and append a row as
  two steps, may stop anywhere, and restart with a counter read back from the log.
- **Sandbox and batches** (`FactTree`, `SandboxModel`, `SandboxProperties`, `StateSandbox`,
  `PrecommitBarrier`, `ToolBatch`). The sandbox has transactions with budgets, facts with undo, files
  in directories with a manifest, and snapshots. A tool is any list of sandbox operations that may fail anywhere.
- **Session memory** (`SessionMemory`, `SessionMemoryProperties`, `MemoryStore`). A bounded window of
  epochs runs beside a complete ledger.
- **Replay and control plane** (`RuntimeState`, `EventLog`, `Replay`, `ControlPlane`,
  `ControlPlaneProperties`). Control calls change the live state and emit events; a fold over the
  events rebuilds the state; a gate stands before the state file.
- **Brace scanners** (`JsonText`, `BraceScanner`) and **recurrence counting** (`Recurrence`).

Classes hold the state that the source updates in place. Their methods are proved equal to
functions of the old state, and the main results are lemmas about those functions over every input
or every run.

## Where the code does less than it looks

Each of these is stated by an exact condition, a lemma with a concrete input, or a contract.

- A tool request without callable tools can be approved, yet the projection never lists it
  (`UnlistedToolRequestDisagrees`).
- The barrier reserves one unit per tool and two for the snapshot, but the restore costs two more
  (`PrecommitReserveIsTooSmall`). With too small a budget the batch raises instead of restoring.
- The planner looks at the patched paths and not above them. A request for `a` and `a/b` is planned, and
  its commit fails after making a directory `a`; a request that creates and deletes `a/b` before it
  creates `a` succeeds where its patches one by one fail; deleting the file `a` and creating `a/b` fails
  where one by one works (`NestedInputs`, `NestedLeavesDirectory`, `FileBecomesDirectory`).
  `SafeFilesExactly` says for which files a request is its patches one by one, `ClearExactly` what stops
  a commit.
- A failed commit leaves the directories it made (`CommitAtomicPatchPlan`).
- A sandbox write through `path + ".tmp"` removes a tracked file of that name but keeps its manifest
  entry. A write onto a directory, as `write a/b` and then `write a`, leaves an unlisted `a.tmp`; it does
  so even after `a/b` is deleted, since a deletion keeps the directories (`AttemptIndexesExactly`,
  `AncestorBreaksIndex`). `SafePathsExactly` says which sets of paths are free of both.
- A request that reuses a decided id of the other lane hides the decision: submitting it again is
  refused as sent to the wrong lane (`ReusedIdHidesDecision`; the exact condition is in
  `DecisionsAreFinal`).
- An approval is bound to an id, not to a request: asking again under an approved id lets the new,
  undecided request be executed (`ReusedIdIsExecuted`, `ExecutedRequestIsDecidedExactly`), and an
  execution does not use the approval up (`ApprovalIsNotUsedUp`).
- Two decision submissions that race can both be recorded (`RacingDecisionsAreBothRecorded`). An
  approval that is late by a whole execution leaves its request in none of the three lists
  (`RacedApprovalUnlists`, `UnlistedExactly`).
- Recovery warns of sound rows: each closing row of an IDE request is reported as an orphan
  reconciliation (`WarningsOfHandlers`).
- Undoing a fact that created objects on its way leaves those objects (`UndoIsExactAlongObjects`).
- A range replacement cannot always be undone by replacing the new lines
  (`UndoRestoresExactlyWhenUndoable`).
- Replay has no branch for permission changes, and a blocked execution request outside plan mode is
  not told (`PermissionCallMirrors`, `CallIsMirroredExactly`, `HaltOutsidePlanIsUntold`).
- A fork's own log replays to a fresh state (`ForkLogStartsFresh`).
- The plain brace scanner is misled by braces in strings (`FoundWholeExactly`,
  `BraceInStringSplitsObject`).
- A limit of 0 epochs shows all of them, because the code slices with `[-0:]` (`ActivePromptFrames`).

## Model

| member | source | states |
|---|---|---|
| `TextLines.JoinUndoesSplit` | runtime_core/comms_server.py:2241-2242 | joining the kept-terminator lines of any text gives the text back |
| `TextLines.ReplaceSplices` | runtime_core/comms_server.py:2244-2260 | a valid line range cuts the text into before, inside and after; the replacement changes only the inside |
| `TextLines.SplitAt` | runtime_core/comms_server.py:2241-2242 | splitting and joining agree at every line: the first `i` lines are the lines of a prefix, the rest the lines of the remaining text |
| `TextLines.UndoRestoresExactlyWhenUndoable` | runtime_core/comms_server.py:2244-2260 | putting the removed text back over the new lines restores the original if and only if the replacement is non-empty, ends in a terminator or reaches end of file, and forms no CR LF pair at either seam |
| `AtomicCommit.RestoreUndoesRenames` | runtime_core/comms_server.py:2396-2403 | renaming a backup list back in reverse order gives exactly the tree from before the renames |
| `AtomicCommit.CompletedRunIsPlanned` | runtime_core/comms_server.py:2405-2440 | when nothing stands in the way, making the directories, staging, backing up, activating and dropping the backups gives exactly the planned writes and deletes with the directories above the writes, no temporary or backup name, and no file below a file |
| `AtomicCommit.UnlinkActivated` | runtime_core/comms_server.py:2449-2451 | unlinking the activated targets gives the backed-up tree without the staged files that were moved |
| `AtomicCommit.RestoreLeavesStaged` | runtime_core/comms_server.py:2396-2403 | restoring the backups of a part of the targets brings back the start and leaves only the remaining staged files |
| `AtomicCommit.PatchDisk.RollBack` | runtime_core/comms_server.py:2441-2458 | from any point of the run, unlinking the activated files, renaming the backups back and cleaning up the staged files leaves the tree from before the commit |
| `AtomicCommit.PatchDisk.StageWrites` | runtime_core/comms_server.py:2406-2411 | makes the directories above each target and stages the write under its fresh name, in plan order, up to a file in the way of a directory or the step that fails; what it has added by then is exactly those directories, the staged files and, when a torn write was hit, the torn file |
| `AtomicCommit.PatchDisk.BackUpAll` | runtime_core/comms_server.py:2413-2429 | moves exactly the existing targets to their backup names, writes before deletes, up to the first target that is a directory by then, one that staging made included, or the step that fails |
| `AtomicCommit.PatchDisk.Activate` | runtime_core/comms_server.py:2431-2434 | moves the staged files over their targets in order, up to the step that fails |
| `AtomicCommit.PatchDisk.CommitAtomicPatchPlan` | runtime_core/comms_server.py:2388-2458 | it commits exactly when nothing stands in the way and no fault strikes before the run is over, then leaves exactly the planned tree; otherwise the error is the fault's, or I/O for a file above a target, or invalid patch for a directory as a target, and every path outside the fresh names is as before but for new directories above the writes, exactly which when no fault strikes |
| `AtomicCommit.ClearExactly` | runtime_core/comms_server.py:2405-2429 | what stands in the way, told from the tree before the run: a file above a written target, a directory as a target, or a target above a written target |
| `PatchPlan.LoadingIsInvisible` | runtime_core/comms_server.py:2271-2300 | reading a path into the overlay does not change the workspace the overlay shows |
| `PatchPlan.EnsureEntry` | runtime_core/comms_server.py:2271-2300 | a path is read once; a directory target is an invalid patch, an unreadable one an I/O error, and the shown workspace stays the same |
| `PatchPlan.PlanPatch` | runtime_core/comms_server.py:2302-2356 | one round of planning on the overlay fails as, or shows the result of, one patch applied to a map of paths |
| `PatchPlan.PlanGivesView` | runtime_core/comms_server.py:2358-2378 | writing and then deleting what the overlay lists gives the map of paths that the overlay shows |
| `PatchPlan.BuildAtomicPatchPlan` | runtime_core/comms_server.py:2262-2378 | the planner looks at the named paths only: it fails at the patch and for the reason at which patching a map of paths one by one first fails; otherwise it writes and deletes exactly the touched paths that are there, or gone, in the end, with the contents of patching the map |
| `PatchPlan.RejectionStays` | runtime_core/comms_server.py:2302-2356 | the first rejection decides, whatever patches follow it |
| `PatchPlan.PatchesStayInside` | runtime_core/comms_server.py:2228-2238 | no list of patches names a path outside the workspace root, whatever `..`, absolute names or spaces its file names spell |
| `PatchExecution.ExecutionOfPlan` | runtime_core/comms_server.py:2655-2671 | committing the plan of a list of patches succeeds or fails as `Execute` says of the touched paths, with its tree and its number of steps |
| `PatchExecution.OnePatchIsExecuted` | runtime_core/comms_server.py:2262-2458 | a request of one patch does to every tree what patching a disk is defined to do, with the same reason when it fails |
| `PatchExecution.UnobstructedAgrees` | runtime_core/comms_server.py:2262-2458 | when no touched path has a file, or another touched path that is no directory, above it, a request ends as its patches one by one on disk: the same patch refused for the same reason, or the same files |
| `PatchExecution.SafeFilesExactly` | runtime_core/comms_server.py:2262-2458 | for any workspace and any set of file names, every list of patches to them ends as its patches one by one on disk if and only if none has a file above it, nor another of them unless that is a directory |
| `PatchExecution.ObstructedDisagrees` | runtime_core/comms_server.py:2277-2300 | otherwise some list of patches to them is executed with success and fails on disk |
| `PatchExecution.CreateThenBelow` | runtime_core/comms_server.py:2413-2417 | creating a path and one below it: the commit fails as an invalid patch, one by one the second patch fails with an I/O error |
| `PatchExecution.CreateThenAbove` | runtime_core/comms_server.py:2413-2417 | creating a path and one above it: the commit fails as an invalid patch, one by one the second patch does |
| `PatchExecution.FileBecomesDirectory` | runtime_core/comms_server.py:2406-2411 | deleting a file and creating one below its path works one by one and fails with an I/O error in one request |
| `PatchExecution.NestedLeavesDirectory` | runtime_core/comms_server.py:2406-2417 | the failed commit of two writes one above the other leaves the upper path as a directory |
| `PatchExecution.NestedInputs` | runtime_core/comms_server.py:2262-2458 | concrete patches of `a` and `a/b`, in every workspace without them: two creations fail in the commit; creating and deleting `a/b` before creating `a` is executed, and fails on disk |
| `PatchExecution.ExecutionStaysInside` | runtime_core/comms_server.py:2228-2238 | no request changes a path outside the workspace root, however it ends, the directories it makes included |
| `PatchExecution.RefusalReasons` | runtime_core/comms_server.py:49-60 | the reasons of planner and commit are among the listed failure reasons, so none is turned into an I/O error afterwards, and none is `patch_not_found` |
| `PatchValidation.ParsedPatchIsWellTyped` | runtime_core/comms_server.py:3028-3102 | a parsed patch has a stripped non-empty file and the fields its operation needs, with 1 <= start_line <= end_line |
| `PatchValidation.ValidatePatchOps` | runtime_core/comms_server.py:3013-3102 | accepts a list, or reports the first problem, exactly as checking the entries in order does |
| `PatchValidation.AcceptedPatchesAreProper` | runtime_core/comms_server.py:3013-3102 | an accepted list has one well-typed patch per entry, with distinct, stripped, non-empty ids |
| `PatchValidation.ValidateIds` | runtime_core/comms_server.py:3146-3159 | accepts exactly the lists of known patch ids and keeps the first occurrences in order |
| `PatchValidation.FirstOccurrencesAreElements` | runtime_core/comms_server.py:3146-3159 | the kept ids are the requested ones, each once |
| `PatchValidation.ValidatePatchRequests` | runtime_core/comms_server.py:3104-3182 | a list is accepted exactly when every entry is valid and no request id repeats; each accepted request holds known patch ids, each once; without a list one default request asks for every patch |
| `PatchValidation.RecordedRequestReadsBack` | runtime_core/comms_server.py:2460-2494 | reading a handler-recorded request back succeeds and gives exactly its validated patches, in requested order with repeats dropped, so `patch_not_found` cannot occur |
| `PatchValidation.RecordedPatches` | runtime_core/comms_server.py:1188-1220 | the row of a request records exactly one patch per requested id, in order |
| `PatchValidation.ExtractRequestPatches` | runtime_core/comms_server.py:2460-2494 | returns the recorded patches that the ids name, in id order, or `patch_not_found` when one is missing |
| `OperationLedger.RebuildRequestProjections` | runtime_core/comms_server.py:224-572 | the loop computes the fold of the rows; pending, ready and closed list exactly the requests of each kind; the warnings are those of the rows in order |
| `OperationLedger.FindRequestOperation` | runtime_core/comms_server.py:2123-2138 | finds a request row with the id that no other request row with the id, of either lane, follows; none is found exactly when there is none |
| `OperationLedger.FindDecisionRecord` | runtime_core/comms_server.py:2140-2150 | finds a decision row of the lane with the id that no other such row follows; none is found exactly when there is none |
| `OperationLedger.LastRequestIsFound` | runtime_core/comms_server.py:2123-2138 | the reverse scan answers with the lane and row of the last request row with the id, wherever it stands |
| `OperationLedger.LastDecisionIsFound` | runtime_core/comms_server.py:2140-2150 | the reverse scan answers with the last decision row of the lane and id, wherever it stands |
| `LedgerProjection.LedgerMirrors` | runtime_core/comms_server.py:224-572 | on every serial handler ledger, what the fold holds of a key mirrors the rows about it: approved after an accepted request, closed once attempted, reconciled once reconciled |
| `LedgerProjection.PatchApprovalAgrees` | runtime_core/comms_server.py:2559-2565 | for patch requests the fold marks an id approved exactly when the reverse scan finds an approved decision, on every handler ledger, racing decisions included |
| `LedgerProjection.ApprovalAgreesExactlyWhenSound` | runtime_core/comms_server.py:224-572 | in either lane the two agree if and only if the approval, if any, follows a request row that the fold accepts |
| `LedgerProjection.UnlistedToolRequestDisagrees` | runtime_core/comms_server.py:2099-2121 | a concrete ledger where they disagree: a tool request without callable tools can be approved, and the fold never lists it |
| `LedgerProjection.EverySeenRequestIsListed` | runtime_core/comms_server.py:462-572 | on every serial handler ledger, every request the fold has seen is pending, ready or closed |
| `LedgerProjection.ProjectionMeaning` | runtime_core/comms_server.py:224-572 | on every handler ledger, racing decisions included, the fold holds exactly the introduced keys: approved when an approval since then has no later denial, reconciled when reconciled since then, closed when closed since then with no later approval |
| `LedgerProjection.UnlistedExactly` | runtime_core/comms_server.py:462-572 | a seen request is in no list if and only if it is approved, was reconciled, and nothing has closed it since its last approval |
| `LedgerProjection.ReadyAndClosedMeansInterrupted` | runtime_core/comms_server.py:499-559 | an id is both ready and closed if and only if it was approved, has an attempt row and has no reconciliation row |
| `LedgerWarnings.WarningsOfHandlers` | runtime_core/comms_server.py:224-572 | on every handler ledger with unique ids, racing decisions included, the warnings are exactly one per tool request without tools, per decision on such a request only, per closing row of an IDE request and per reconciliation of such a tool request, in row order: no duplicate id, no unreadable decision |
| `LedgerWarnings.ExpectedExactly` | runtime_core/comms_server.py:224-572 | a warning is in that list if and only if it is that of a row which the rows before it do not place |
| `LedgerWarnings.SilentExactly` | runtime_core/comms_server.py:224-572 | recovery warns of nothing if and only if every row is placed, which every patch-lane row is |
| `LedgerWarnings.RunWarnings` | runtime_core/comms_server.py:77-127 | under every interleaving of threads and restarts the log yields exactly that list of warnings |
| `LedgerProtocol.StepKeepsInv` | runtime_core/comms_server.py:111-127 | every step of every thread, and every restart, keeps the ids unique and bounded by the counter, the parents first, and each row justified |
| `LedgerProtocol.HighestIdBounds` | runtime_core/comms_server.py:77-95 | the counter reloaded from the log is at least every id in it |
| `LedgerProtocol.OperationIdsNeverRepeat` | runtime_core/comms_server.py:77-127 | under every interleaving of allocate and append steps and restarts, operation ids never repeat |
| `LedgerProtocol.ParentsPrecedeChildren` | runtime_core/comms_server.py:2039-2072 | every parent row precedes its child in every reachable log |
| `LedgerProtocol.AttemptsAreApproved` | runtime_core/comms_server.py:2559-2653 | every apply attempt is preceded by a request row and an approved decision of the same lane and id |
| `LedgerProtocol.LogOnlyGrows` | runtime_core/comms_server.py:123-127 | no step and no restart removes or changes a row |
| `LedgerProtocol.SerialRunsAreWellFormed` | runtime_core/comms_server.py:2162-2226 | with each decision submission one step, every reachable log is a serial handler ledger, so the projection results hold of it |
| `LedgerHandlers.CommsHandler.constructor` | runtime_core/comms_server.py:77-97 | the counter starts at the highest id of the log, which keeps the ledger sound |
| `LedgerHandlers.CommsHandler.RecordOperation` | runtime_core/comms_server.py:2039-2072 | appends the row under the next id and keeps ids unique and parents first |
| `LedgerHandlers.CommsHandler.SubmitPatches` | runtime_core/comms_server.py:1139-1220 | a refused body leaves nothing; an accepted one appends its own row and one row per request, each with a record from which exactly its validated patches read back in requested order, and every patch request row keeps such a record |
| `LedgerHandlers.CommsHandler.HandleDecisionSubmission` | runtime_core/comms_server.py:2162-2226 | answers and writes as the decision table says: at most one decision row, only for a located request of the lane without one |
| `LedgerDecisions.OneDecisionPerKey` | runtime_core/comms_server.py:2192-2205 | a serial handler ledger holds at most one decision row per lane and id |
| `LedgerDecisions.DecisionsAreFinal` | runtime_core/comms_server.py:2181-2205 | once a serial run has recorded a decision, it is the only one of its lane and id in every continuation; every later submission writes nothing and gets the receipt or a conflict, or, exactly when the last request with the id is of the other lane, the wrong-lane refusal |
| `LedgerDecisions.ReusedIdHidesDecision` | runtime_core/comms_server.py:2181-2190 | a concrete ledger: after a tool request with the id of a decided patch request, even the repeated decision is refused as sent to the wrong lane |
| `LedgerDecisions.RacingDecisionsAreBothRecorded` | runtime_core/comms_server.py:2192-2226 | wherever a request may be decided, two threads that both check before either writes record both decisions, and the later row is the one found |
| `LedgerDecisions.RacedApprovalUnlists` | runtime_core/comms_server.py:2192-2226 | wherever a listed request may be decided, an approval that was checked before another one and is written after the execution takes the request out of all three lists |
| `LedgerDecisions.ExecutedRequestIsDecidedExactly` | runtime_core/comms_server.py:2545-2565 | the request that an execution finds is the one its decision was made on if and only if no request row with the id, of either lane, follows the decision |
| `LedgerDecisions.ReusedIdIsExecuted` | runtime_core/comms_server.py:2545-2565 | a concrete ledger: a second patch request under an approved id may be executed without a decision of its own |
| `LedgerDecisions.ApprovalIsNotUsedUp` | runtime_core/comms_server.py:2559-2653 | after an execution exactly the same requests may be executed as before, the executed one included |
| `LedgerHandlers.CommsHandler.ApplyPatches` | runtime_core/comms_server.py:2655-2671 | a rejected patch gives its reason and id and touches nothing; otherwise the patches are applied if and only if nothing stands in the way and no fault strikes before the last step of the commit; a failed commit names its error and the first patch, and shows every file as it was |
| `LedgerHandlers.CommsHandler.HandlePatchExecution` | runtime_core/comms_server.py:2528-2711 | without a request and an approval nothing is written; otherwise exactly an attempt, a result and a reconciliation row are appended, and reason, patch id and files are those of unreadable patches, of the first rejected patch, of a failed commit, or of success; patches of a handler-recorded request are never missing |
| `LedgerHandlers.UnobstructedOutcome` | runtime_core/comms_server.py:2528-2711 | with nothing above the patched paths in the way and no fault, the answer and the files of an execution are those of the patches one by one on disk |
| `FactTree.SetThenGet` | runtime_core/sandbox.py:162-197 | reading after a set: the written key reads the value, every key below it reads from the value alone, and every key that neither extends nor contains it reads as before |
| `FactTree.UndoRestoresReads` | runtime_core/sandbox.py:199-222 | undoing a set leaves every key reading as before, except the proper prefixes of the written key |
| `FactTree.UndoIsExactAlongObjects` | runtime_core/sandbox.py:199-222 | the whole fact tree is restored if and only if every proper prefix of the key already was an object |
| `SandboxProperties.StepKeepsSnapshots` | runtime_core/sandbox.py:723-820 | no operation changes or removes a snapshot, whether it succeeds or fails |
| `SandboxProperties.RunKeepsSnapshots` | runtime_core/sandbox.py:129-154 | snapshots are immutable over every run of fact, task, artifact, note, file, prune, compress, reset, snapshot and restore operations |
| `SandboxProperties.RestoreIsExact` | runtime_core/sandbox.py:776-820 | after a snapshot and any later run, restoring it gives back the memory with its revision, the files and the manifest; it succeeds exactly when the file budget covers its cost |
| `SandboxProperties.AttemptIndexesExactly` | runtime_core/sandbox.py:485-490 | an attempted write keeps the manifest an exact index if and only if it stops before it writes, or no directory is at the path and no file under its `.tmp` name, or a directory is at the path and the `.tmp` file it leaves was there with the same text |
| `SandboxProperties.RecordIndexes` | runtime_core/sandbox.py:1001-1033 | recording a write gives one entry per file with its current hash and size, and no others |
| `SandboxProperties.RunKeepsIndexed` | runtime_core/sandbox.py:469-630 | in every sandbox reached by writing tracked paths, none the `.tmp` name of another and none a directory above another, the manifest is an exact index of the files |
| `SandboxProperties.SafePathsExactly` | runtime_core/sandbox.py:469-630 | a set of paths can be written, deleted and rolled back in any order from a new sandbox with an exact manifest throughout if and only if none is the `.tmp` name of another and none a directory above another |
| `SandboxProperties.AncestorBreaksIndex` | runtime_core/sandbox.py:485-488 | concrete runs: writing `a/b` and then `a`, also with `a/b` deleted in between, leaves an unlisted `a.tmp` |
| `SandboxProperties.FactRollbackIsExact` | runtime_core/sandbox.py:172-222 | through the transactions, a fact rollback restores every read but those of proper prefixes, leaves tasks, artifacts, notes and files alone and counts two revisions |
| `StateSandboxes.StateSandbox.Transaction` | runtime_core/sandbox.py:868-903 | a memory write changes the memory, its revision and the budget together, or changes nothing and reports why: malformed arguments before cost and budget, refusals of the mutation after them |
| `StateSandboxes.StateSandbox.WriteText` | runtime_core/sandbox.py:469-510 | writes file, directories above it and manifest and pays; or refuses and changes nothing; or the file system refuses, and what it did until then stays: directories made, or a `.tmp` file beside a directory |
| `StateSandboxes.StateSandbox.RollbackWrite` | runtime_core/sandbox.py:512-552 | puts the previous text back as a write does, or removes the file with its manifest entry; a directory at the path is an error |
| `StateSandboxes.StateSandbox.Delete` | runtime_core/sandbox.py:554-603 | removes file and manifest entry and pays; deleting an absent file pays nothing, and a directory is refused; directories stay |
| `StateSandboxes.StateSandbox.RollbackDelete` | runtime_core/sandbox.py:605-630 | puts the deleted file and its manifest entry back, or leaves what a refused write leaves |
| `StateSandboxes.StateSandbox.SnapshotState` | runtime_core/sandbox.py:723-774 | stores memory, files and manifest under a new id and pays |
| `StateSandboxes.StateSandbox.Restore` | runtime_core/sandbox.py:776-820 | replaces memory, files and manifest by those of the snapshot and pays, or changes nothing |
| `StateSandboxes.StateSandbox.RecordInManifest` | runtime_core/sandbox.py:1001-1033 | replaces the entry of a path by one with the next version, the file's hash and size |
| `PrecommitBarriers.PrecommitBarrier.Precommit` | runtime_core/barrier.py:56-74 | a token, new to the barrier, exactly when nothing forbids the plan |
| `PrecommitBarriers.PrecommitBarrier.Consume` | runtime_core/barrier.py:76-81 | a token gives its plan once and is gone |
| `ToolBatch.EnoughForRestore` | runtime_core/runtime.py:2493-2506 | a budget for all tools and rollbacks, whatever they did and wherever they failed, leaves the amount set aside for the restore |
| `ToolBatch.PrecommitReserveIsTooSmall` | runtime_core/barrier.py:67-69 | a concrete batch that the barrier admits and whose restore the budget no longer covers |
| `ToolBatch.AttemptIsReversible` | runtime_core/runtime.py:2493-2506 | whatever the executed tools and their rollbacks did, restoring the snapshot brings back the contents from before, and succeeds exactly when the budget covers it |
| `ToolBatch.BatchRuntime.ExecuteTools` | runtime_core/runtime.py:2478-2491 | runs the tools in order up to the first failure, one result per tool run |
| `ToolBatch.BatchRuntime.RollBackExecuted` | runtime_core/runtime.py:2977-3019 | undoes the executed tools last first, skipping over rollbacks that fail, and keeps every result's name and verdict |
| `ToolBatch.BatchRuntime.BindToolBatch` | runtime_core/runtime.py:2398-2518 | one result per plan in plan order; a mutating batch with a failed tool leaves memory, files and manifest as before; no exception when the file budget covers all tools, rollbacks, snapshot and restore |
| `SessionMemoryProperties.WindowIsAlwaysRecoverable` | runtime_core/memory.py:97-149 | in every run the live epochs, with their messages and whether they are closed, are exactly what the ledger tells of the epochs created and not evicted; their numbers run on to the newest, at most `max_epochs` are closed, and none was evicted while there was room |
| `SessionMemoryProperties.ActiveFramesEndTheHistory` | runtime_core/memory.py:151-156 | the active prompt frames are the end of the full message history, for every limit on epochs |
| `SessionMemoryProperties.LedgerIsComplete` | runtime_core/memory.py:232-263 | the ledger holds every message of the session in the order sent, whatever was evicted |
| `SessionMemoryProperties.RunKeepsInv` | runtime_core/memory.py:97-141 | every append, close, note and session end keeps window and ledger in agreement |
| `SessionMemoryProperties.EvictionsAreMarks` | runtime_core/memory.py:717-725 | logging evictions marks exactly those epochs as evicted and changes no other tale of the ledger |
| `MemoryStores.StmStore.EvictIfNeeded` | runtime_core/memory.py:136-141 | drops exactly the oldest epochs that do not fit and returns their numbers in order |
| `MemoryStores.StmStore.AppendFrame` | runtime_core/memory.py:97-118 | the message goes to the open epoch or a new one; a closing role closes it and evicts the oldest |
| `MemoryStores.StmStore.ForceClose` | runtime_core/memory.py:120-134 | closes the open epoch at its last message and evicts; an open epoch without messages goes away unrecorded |
| `MemoryStores.StmStore.ActivePromptFrames` | runtime_core/memory.py:143-156 | the messages of the recent epochs, oldest first; a limit of 0 means all of them |
| `MemoryStores.MemoryStore.Append` | runtime_core/memory.py:692-726 | window and ledger after a message are those of the model whose runs are proved recoverable |
| `MemoryStores.MemoryStore.CloseEpoch` | runtime_core/memory.py:734-751 | window and ledger after a forced close are those of that model |
| `MemoryStores.MemoryStore.CloseSession` | runtime_core/memory.py:753-774 | the ledger events of a closing session, in order, after the forced close |
| `EventLogs.SortResult` | runtime_core/replay.py:32 | loading orders the events by `seq` and keeps them all |
| `EventLogs.OrderIsUnique` | runtime_core/replay.py:32 | two orderings of the same events are equal when a number names one event |
| `EventLogs.SameLinesSameEvents` | runtime_core/replay.py:23-31 | reordered lines hold the same events, blank and malformed lines aside |
| `EventLogs.FoldConcat` | runtime_core/replay.py:194-199 | folding a log is folding its first part and then the rest |
| `Replay.LoadEventsWithDiagnostics` | runtime_core/replay.py:12-40 | the events of the parsed lines in order, and the exact numbers of the malformed lines |
| `Replay.ReplayIgnoresLineOrder` | runtime_core/replay.py:12-45 | logs with the same lines in any order load to the same event list when a number names one event |
| `Replay.SameNumberKeepsLineOrder` | runtime_core/replay.py:32 | two events with one number keep the order of their lines, so there the order matters |
| `Replay.CutIsFilterExactly` | runtime_core/replay.py:201-208 | stopping at the first event past the cycle takes exactly the events within it if and only if none of them comes after one past it |
| `Replay.ReplayUntilIsExact` | runtime_core/replay.py:201-208 | in a single-run log, `replay_until(c)` folds exactly the events of cycle at most `c` |
| `Replay.ForkThenRestIsParent` | runtime_core/replay.py:210-236 | in a single-run log, a fork's state followed by the parent's events numbered above the fork's `parent_seq` ends in the parent's final state |
| `Replay.AnchorCutsTheLog` | runtime_core/replay.py:226-233 | in a single-run log an event is in the fork's past exactly when its `seq` is at most `parent_seq`, which is 0 or the number of an event of the cut prefix |
| `Replay.ForkLogStartsFresh` | runtime_core/replay.py:241-262 | the fork's own log replays to a fresh state: the past of the fork is only in its saved state |
| `Replay.Replayer.Replay` | runtime_core/replay.py:194-199 | the loop computes the fold of the loaded events from a fresh state |
| `Replay.Replayer.ReplayUntil` | runtime_core/replay.py:201-208 | the loop computes the fold of the events before the first one past the cycle |
| `Replay.Replayer.ForkFrom` | runtime_core/replay.py:210-272 | the fork has the state of the cut prefix, its last run id, its greatest number, and a log of one `fork.created` event |
| `ControlPlaneProperties.CallIsMirroredExactly` | runtime_core/runtime.py:3122-3156 | without gate drift, folding the events of a control call gives the live state if and only if the call is not a blocked execution request outside plan mode |
| `ControlPlaneProperties.RunIsMirrored` | runtime_core/replay.py:67-102 | from a state where blocked means plan mode, folding the events of any run of the five control calls gives the live state |
| `ControlPlaneProperties.ReplayRebuildsTheLiveState` | runtime_core/replay.py:194-199 | after any such run by a fresh runtime, replaying its log file, its lines in any order, gives the live state |
| `ControlPlaneProperties.PermissionCallMirrors` | runtime_core/runtime.py:3203-3236 | a permission call is mirrored by its events if and only if it changes nothing, since replay has no branch for them |
| `ControlPlaneProperties.HaltOutsidePlanIsUntold` | runtime_core/runtime.py:1472-1476 | after a halt that leaves execute mode on, the next execution request changes the mode and replay is not told |
| `ControlPlaneProperties.ProfileNamesItself` | runtime_core/policy_engine.py:125-186 | asking for a profile by the name it carries gives the profile again, so the event of a governance change is enough to replay it |
| `ControlPlaneProperties.OpenGateNeverRejects` | runtime_core/runtime.py:3800-3837 | while only the runtime writes the state file, no call of any run has its save rejected, the anchor stays the file's hash, and the file holds the live state after any call that saves |
| `ControlPlaneProperties.ClosedGateNeverWrites` | runtime_core/runtime.py:3800-3825 | once file and anchor differ, or either is missing or unreadable, no sequence of control calls writes the file, and the runtime is halted in plan mode from the first call that reaches the save |
| `ControlPlaneProperties.ForeignFileSurvives` | runtime_core/cli.py:511 | a file written from outside between two runs of calls closes the gate exactly when it reads differently, and then is never overwritten |
| `ControlPlane.Runtime.constructor` | runtime_core/runtime.py:312-317 | a missing state file is written first; the gate starts open exactly when the file is readable |
| `ControlPlane.Runtime.SaveState` | runtime_core/runtime.py:3800-3837 | saves through an open gate and moves the anchor; otherwise halts in plan mode and writes nothing |
| `ControlPlane.Runtime.SetExecutionMode` | runtime_core/runtime.py:3122-3156 | buddy mode and the killswitch force plan mode and a blocked event; otherwise the mode is set, saved and told |
| `ControlPlane.Runtime.SetGovernanceMode` | runtime_core/runtime.py:3326-3346 | a known mode, however spelled, sets its profile, keeping the authority unless in repair |
| `ControlPlane.Runtime.SetOperatorAuthority` | runtime_core/runtime.py:3238-3251 | a known authority is set, saved and told; an unknown one changes nothing |
| `ControlPlane.Runtime.EngageKillswitch` | runtime_core/runtime.py:3253-3282 | halts in plan mode with no budget left, whatever the gate says, and tells it |
| `ControlPlane.Runtime.ReleaseKillswitch` | runtime_core/runtime.py:3284-3295 | clears the killswitch fields and leaves the mode alone |
| `ControlPlane.Runtime.SetPermissionMode` | runtime_core/runtime.py:3203-3236 | the three permission modes with their execution mode and budget, and the two refusals of autonomous mode |
| `BraceScanner.ExtractBalancedJson` | runtime_core/model.py:594-624 | the loop returns what scanning with depth, string and escape states finds from the start |
| `BraceScanner.BalancedJsonUndoesPrinting` | runtime_core/model.py:594-624 | for every JSON object, in any layout and with any escapes, and any text before and after it, the string-aware scanner returns exactly the printed object |
| `BraceScanner.CutObjectIsNotExtracted` | runtime_core/model.py:594-624 | from an object cut short anywhere, nothing is returned |
| `BraceScanner.StringIsNeutral` | runtime_core/model.py:605-616 | a string literal leaves the scanner where it was, whatever braces, quotes and backslashes it spells |
| `BraceScanner.ExtractBalancedJsonObjects` | runtime_core/model.py:636-652 | the loop returns what counting braces finds, with the text of each object cut from its start index |
| `BraceScanner.BalancedObjectsUndoPrinting` | runtime_core/model.py:636-652 | from prose that opens no brace, interleaved with printed objects whose strings show no brace, exactly the objects, in order |
| `BraceScanner.FoundWholeExactly` | runtime_core/model.py:636-652 | a text that starts with a brace is returned whole if and only if its braces, those in strings included, first balance at its end |
| `BraceScanner.BraceInStringSplitsObject` | runtime_core/model.py:636-652 | a concrete object with a closing brace in a key: the string-aware scanner returns it, the plain one does not |
| `Recurrence.WorkspaceIngestionLayer.Ingest` | runtime_core/ingestion.py:126-176 | an event of a known kind counts its entity with decay; the recurrence signal is added from a count of 3 on |
| `Recurrence.WorkspaceIngestionLayer.ResetRecurrence` | runtime_core/ingestion.py:244-247 | forgets every count and every last cycle |
| `Recurrence.KindsApart` | runtime_core/ingestion.py:34-47 | of the mapped kinds, opening a file is the only one below the proposal threshold and a revisit the only one that is the recurrence signal itself |
| `Recurrence.TableHoldsCounts` | runtime_core/ingestion.py:139-148 | in every history the tables hold exactly the entities seen, each with its own running count, whatever else was seen in between |
| `Recurrence.CountIsDecayedSum` | runtime_core/ingestion.py:139-148 | for cycles that never go down, the count is the sum over all sightings of 0.85 to the number of cycles since each |
| `Recurrence.RecurrenceIsDecayedSum` | runtime_core/ingestion.py:165-169 | an event of a mapped kind other than an opened or a revisited file adds the recurrence signal if and only if the decayed sum of its entity's sightings is 3 or more |
| `Recurrence.SparseStaysBelow` | runtime_core/ingestion.py:66-70 | an entity seen at most once every 3 cycles stays at or below 8000/3087, under the threshold, for ever |
| `Recurrence.SparseNeverRecurs` | runtime_core/ingestion.py:165-169 | in any history such an entity never adds the recurrence signal |
| `Recurrence.EveryTwoCyclesCrossesAtSix` | runtime_core/ingestion.py:66-70 | an entity seen every 2 cycles crosses the threshold exactly at its sixth sighting; faster crosses by then, slower not before |

## Left out

- HTTP, CORS, event streams, static files and JSON encoding: the model starts from parsed values.
- File contents are texts as `read_text` gives them: newline translation, encodings and decoding errors
  are not modelled beyond a set of paths whose reading fails.
- Symbolic links and permissions.
- The rollback renames and unlinks of the commit are taken to work; an interrupted write may leave a torn
  staged file.
- UUIDs are names that occur nowhere else; SHA-256 is an injective function.
- A row is appended whole: a line cut short by a crash is not modelled, nor is the 1,000,000-row cap on
  reads.
- Decision ids and their counter, timestamps, actors and free-text details of ledger rows.
- `LedgerMirrors`, `EverySeenRequestIsListed`, `ReadyAndClosedMeansInterrupted`,
  `ApprovalAgreesExactlyWhenSound`, `OneDecisionPerKey`, `DecisionsAreFinal`,
  `ExecutedRequestIsDecidedExactly` and the methods of `CommsHandler` take each decision submission as one
  step; the other results about the ledger do not.
- The outputs of tool execution handlers and the tool lane's execution body; its ledger rows are part of
  `LedgerProtocol`.
- Sandbox I/O failures other than those that a directory or a file in the way causes, and the mode
  without `memory.json`.
- Sandbox values are copied, so aliasing between memory and snapshots is not modelled; the code deep-copies.
- `recall_notes`, `list_files` and `list_snapshots`, which only read.
- Gate anchors of tool execution, their expiry and the write-ahead receipts: a tool may be rejected by the
  gate before or after it runs.
- `StmStore.from_dict`, `clear`, the episodic, semantic, working and procedural stores, and the archive
  that `close_session` writes. Epochs are values, replaced where the code appends to their lists.
- Replay of identity nodes and signal vectors, and events whose fields have other types than their
  emitters write.
- Event identifiers, modules, levels and messages; events denied as simulation-only.
- `set_posture`, tick modes and the compound calls made of engage and release. Writing the state file
  is taken to succeed.
- `str.lower` is exact where its result is plain ASCII, which is all that the code compares with.
- Floating point: recurrence counts and budgets are real numbers.
- The proposal that an ingested event leads to: its destination, score and key.
- Regular-expression cleanup, model calls, prompts, MCP sessions, user interfaces and scoring tables.
