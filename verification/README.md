# Shadoc verification

A Dafny 4.11 model of the parts of Shadoc, a backup control service, whose correctness is decided by code rather
than by the programs and servers it calls, with proofs about them. `dafny verify dfyconfig.toml` checks everything.

Code that updates state in place is modelled by classes and methods with the same fields, branches and order of
calls. Each method is proved against a specification on values, and the properties are proved about that
specification. Whatever the outside world answers (restic, the store, the vault, the disk, other services, clocks,
the notifier) is a parameter, so every theorem holds for all answers, failures included.

## What is modelled

**Running backups.** `RunControl` is a machine whose steps are those of any number of backup runs and of other
services' operations on the same repositories: task guard, slot semaphore, repository mutex, cancellable repository
lease, retry loop, and releases on every exit. `RunController` holds the controller and the lock registry as code,
with the exact backoff. `OperationManager` is the second concurrent machine, for background operations, and
`OperationRuntime` is its code, proved to walk through that machine. `Ownership` has the counting both machines use.

**Protecting partial snapshots.** `Protection` covers local backups, Agent backups and maintenance of one repository,
which share a status field, a tag and a retention rule. `Rotation` is the password rotation and revocation, where the
process may stop before or after every external call.

**Streams.** `Lines` gives the meaning of newline-delimited input and `Text` the size of text in bytes. `LineWriter` and `SummaryCollector` are the two
chunk consumers, `FileEvidence` the completion of file counts and the outcome drawn from them, `Manifest` the hashed
stream of a restored tree, `Base64` and `MetadataTags` the snapshot tags, and `SnapshotBrowser` the paging through a
snapshot and the comparison of two.

**Scopes.** `ScopeMatch` and `ScopePath` are the exclusion matcher, `ScopeScan` the accounting of a walk,
`ScopeUpload` the bounded chunks and the receiver's check, `ScopePreview` the walk with its upload.

**Alerts.** `Alerts` has the keys and the alert service, `AlertRules` says in terms of the facts' own fields what the
alerts are after a reconciliation, `Verdicts` what each fact says about each alert,
`VerdictKeys` that no key is judged twice, `Settlement` what a sequence of decisions does, `Reconciliations` the
incremental code, and `Reconciler` the theorem that it amounts to a direct function of the facts.

**Sagas with undo.** `AppFiles`, `AppInstall` and `AppUpdate` are installation and update of the application,
`DatabaseRestore` the restore into a database, `ProtectionSetup` the repeatable set-up from a draft.

## Where the code does not do what one might expect

For each there is a concrete case, a statement of exactly when the expected property holds, or both.

- A status loaded before another run of the same repository ended can hide a partial snapshot
  (`Protection.StaleStatusLosesASnapshot`, exact condition `Protection.AttemptKeepsProtectionIff`).
- Maintenance that comes between an Agent's work and its report can forget the snapshot that the report names
  (`Protection.GapLosesASnapshot`, exact condition `Protection.GapKeepsProtectionIff`).
- The Agent path and the local path differ in two cases: only an Agent takes on a repository without a status, and
  only a local run takes on a pending snapshot id that is too long or holds blanks, which neither path refuses to store
  (`Protection.AgentAndLocalAgree`, `Protection.AgentRefusesThePendingId`).
- A second caller of `Close` returns while work still runs (`OperationManager.LateCloseDoesNotWait`). No work follows
  the return of a `Close` if and only if no operation was under way then (`OperationManager.NoWorkAfterReturnIff`).
- Exit code 0 of a directory backup is a success despite failures seen in the log when no processed count is known,
  and when the processed count leaves no room to add them within 64 bits and no larger total was announced
  (`FileEvidence.SuccessDespiteObservedFailures`, exact condition `FileEvidence.Conclude`).
- Backoff doubles only while the waits fit 64 bits (`RunController.BackoffIsGeometricIffItFits`).
- A companion file named like the binary makes a late undo leave the new program behind, and one named like its
  checksum record leaves the old program with a record that does not match (`AppInstall.CompanionNamedLikeTheBinary`,
  `AppInstall.CompanionNamedLikeTheRecord`, exact conditions `AppInstall.OldBinaryIsBackIff`).
- An update is recorded as "old version kept" with the new program installed when its last report is lost, or when a
  rollback fails whose beginning could not be reported (`AppUpdate.KeptIsFalseWithoutTheLastReport`,
  `AppUpdate.KeptIsFalseWithoutTheRollbackReport`); with both reports recordable the words are true, and
  `AppUpdate.PerformManagedUpdate` says exactly when they are not in each of the two situations.
- The observer of ended runs and the reconciler disagree about disabled tasks (`Reconciler.ObserverAgrees`).

## Model

| member | source | states |
|---|---|---|
| RunControl.NextInv | internal/run/controller.go:80-145 | Every step of every caller keeps: each lock has exactly the holder it shows, occupied slots are exactly the callers holding one, and at most the capacity. |
| RunControl.EveryStateIsSafe | internal/run/controller.go:80-145 | That holds in every state of every interleaving of any number of callers, with cancellation at any wait. |
| RunControl.MutualExclusion | internal/run/controller.go:80-115 | At most one caller per task past the guard, one operation per repository, one holder of a repository's lease across services, bounded slots; the running tasks are exactly those between guard and exit. |
| RunControl.NothingLeaks | internal/run/controller.go:80-115 | Once all callers are done, no task, slot, mutex or lease is held. |
| RunControl.ResultsAreDeserved | internal/run/controller.go:118-145 | A finished run made at most its number of attempts, went on only after temporary errors, and reports what its last reply deserves, stated without the loop. |
| RunControl.DeepestCanMove | internal/backup/service.go:77-84 | The caller that holds most in the order slot, mutex, lease never waits for anybody. |
| RunControl.NoDeadlock | internal/repolock/registry.go:14-29 | While any caller is unfinished, some caller can take a step other than giving up. |
| RunControl.StepsRunOut | internal/run/controller.go:118-145 | Every step of any caller lowers a rank. |
| RunControl.RunsAreBounded | internal/run/controller.go:118-145 | So no behaviour is longer than the rank of its first state: runs end. |
| RunController.BackoffIsGeometricIffItFits | internal/run/controller.go:134-141 | The waits before attempt n add up to delay * (2^(n-1) - 1) if and only if the last of them fits 64 bits. |
| RunController.WaitIsTheRest | internal/run/controller.go:134 | What is waited is the doubled delay modulo 2^64, or nothing when that reads as negative. |
| RunController.Controller.Execute | internal/run/controller.go:80-145 | A call is a path of the machine of `RunControl`. What it answers for every encounter: turned away, cancelled, waiting for a slot or for its repository's mutex, or run; then it tried until the first invocation after which there is no temporary error, no attempt left or no completed backoff, and everything it took is returned. |
| RunController.Controller.Attempt | internal/run/controller.go:118-145 | The retry loop's replies, waits and result for every encounter, as a path of the machine. |
| RunController.Registry.Acquire | internal/repolock/registry.go:14-29 | A lease that is held is not acquired, a free one is unless the context has ended; when both hold either may win. Other leases are untouched. |
| RunController.Registry.Release | internal/repolock/registry.go:14-29 | The lease is free again and no other changes. |
| OperationManager.EveryStateIsSafe | internal/operation/manager.go:88-185 | The ownership invariant of keys, active entries, records and the wait group holds in every interleaving of start, finish and close. |
| OperationManager.OneUnfinishedPerKey | internal/operation/manager.go:88-113 | No two unfinished operations share a unique key. |
| OperationManager.UniqueEntries | internal/operation/manager.go:97-113 | A key entry is empty exactly while one caller is reserving it, and otherwise names an active operation with that key; nobody else owns it. |
| OperationManager.FinishedExactlyOnce | internal/operation/manager.go:115-185 | No record is finished twice, and once all calls have settled each created record has been finished once and nothing is held. |
| OperationManager.NoWorkAfterClose | internal/operation/manager.go:227-239 | After the `Close` that waited has returned, no operation works, is active or can become so. |
| OperationManager.LateCloseDoesNotWait | internal/operation/manager.go:227-233 | A behaviour in which a second `Close` has returned while work is running. |
| OperationManager.NoWorkAfterReturnIff | internal/operation/manager.go:227-239 | No work is under way from the return of any `Close` on, if and only if the wait group was empty at that return; for the one that waited it was. |
| OperationManager.StartsNeverWait | internal/operation/manager.go:88-185 | A start call or goroutine that has something left to do can do it, if its work returns; it waits for nobody. |
| OperationManager.NoDeadlock | internal/operation/manager.go:88-239 | While any call is under way, some call can step. |
| OperationManager.StepsRunOut | internal/operation/manager.go:88-239 | Every step of any call lowers a rank. |
| OperationManager.RunsAreBounded | internal/operation/manager.go:88-239 | So no behaviour is longer than the rank of its first state. |
| OperationManager.EverythingReturns | internal/operation/manager.go:227-239 | A behaviour that cannot go on has every operation over and every `Close` returned, one of them after waiting. |
| OperationRuntime.Runtime.StartUnique | internal/operation/manager.go:88-149 | A start call is a path of the machine. Exactly when it starts an operation, finds the key in use or being made, or fails, with the whole new state; for a key in use the stored record, or that it could not be read. |
| OperationRuntime.Runtime.Run | internal/operation/manager.go:151-185 | The goroutine is a path of the machine from registered to ended; its whole new state. |
| OperationRuntime.Runtime.BeginClose | internal/operation/manager.go:227-239 | Only the first close waits. |
| Protection.AttemptKeepsProtectionIff | internal/backup/service.go:117-155 | Exactly when one attempt keeps every needed partial snapshot tagged or named in the status, whatever status it loaded. |
| Protection.AttemptedIs | internal/backup/service.go:117-155 | Every attempt snapshot by snapshot, in terms of its calls: status, reply, the snapshot taken, which tags are set and which are cleared. |
| Protection.FailedTagEndsTheRun | internal/run/controller.go:126-133 | Whichever attempt a tag fails in, what could come after it in the same run changes nothing: no second backup. |
| Protection.OneSnapshotPerRun | internal/backup/service.go:117-155 | However often a run tries, it takes at most one snapshot. |
| Protection.RunKeepsProtection | internal/backup/service.go:62-155 | A whole run with its retries keeps the protection; with maintenance in between see `EveryHistoryIsProtected`. |
| Protection.MaintenanceForgetsNoNeededSnapshot | internal/repository/service.go:1081-1108 | Maintenance forgets no needed partial snapshot, whatever the retention policy selects. |
| Protection.AgentAndLocalAgree | internal/agenttask/service.go:114-155 | For the same starting status and restic outcomes, both status writes working, the Agent path leaves the status the local path leaves, if and only if it is neither of the two cases named. |
| Protection.AgentTakesTheSameSnapshots | internal/resticagent/engine.go:43-99 | An Agent does to the snapshots what a local run does, but for clearing tags. |
| Protection.AgentRefusesThePendingId | internal/resticagent/engine.go:37-39 | The second of those cases, with what either path then leaves. |
| Protection.AgentRunKeepsProtection | internal/resticagent/engine.go:43-99 | The Agent path keeps the protection when the report of a snapshot it could not tag is recorded. |
| Protection.EveryHistoryIsProtected | internal/backup/service.go:117-155 | Over any sequence of single attempts on the status their run loaded, Agent work, Agent reports and maintenance in between, with any restic call failing: every needed partial snapshot is present, and tagged, named in the status or named in a report to come. |
| Protection.RunIsItsAttempts | internal/backup/service.go:62-115 | The single attempts of those histories add up to the service's retried run. |
| Protection.EventsOfRuns | internal/agenttask/service.go:137-155 | A run begins with the status as it is, an Agent's run is its work and its report, and neither begins beside another. |
| Protection.GapKeepsProtectionIff | internal/agenttask/service.go:137-155 | After an Agent's work, maintenance and then the report, all is protected if and only if maintenance did not forget the snapshot that only the report names. |
| Protection.GapLosesASnapshot | internal/agenttask/service.go:137-155 | A case where it does. |
| Protection.StaleStatusLosesASnapshot | internal/backup/service.go:62-66 | With a status loaded too early a needed snapshot can be forgotten. |
| Protection.Repository.Execute | internal/backup/service.go:117-155 | The code's sequence of status writes and restic calls has that effect, snapshot by snapshot. |
| Protection.Repository.Run | internal/backup/service.go:62-115 | The retried run has the effect the theorems are about, and goes on exactly after temporary errors. |
| Protection.Repository.MaintainUnlocked | internal/repository/service.go:1081-1108 | Which snapshots maintenance forgets, that exactly a failed check makes the status abnormal, and exactly when it succeeds. |
| Rotation.Repository.RotatePassword | internal/repository/service.go:334-388 | Exactly when it is done and when the process stops, and exactly which keys, secrets and pending revocation there are then, whatever call fails; the stored secret exists and opens the repository through a key that no revocation will remove. |
| Rotation.Repository.ReplacePassword | internal/repository/service.go:358-388 | The same from the new secret on: stored, added as a key, verified, committed, or deleted again. |
| Rotation.Repository.RevokeOldPassword | internal/repository/service.go:407-435 | Only the old key can go, the revocation ends only after it has gone; exactly when it goes through, when the process stops and what is gone. |
| Rotation.Repository.RevokeRepeatedly | internal/repository/service.go:407-435 | Repeated after stops anywhere, the revocation in the end removes exactly the old key and the old secret; one try in which every call works ends it. |
| Rotation.Repository.History | internal/repository/service.go:334-435 | Over any sequence of rotations and revocations the repository stays usable. |
| Lines.SplitIsExact | internal/repository/service.go:637-668 | Splitting at newlines loses and invents nothing. |
| LineWriter.ScanStopsAtFirstError | internal/repository/service.go:637-668 | What the reference scan means: the visitor sees the non-empty lines of a prefix that ends at the first error. |
| LineWriter.SnapshotLineWriter.Write | internal/repository/service.go:637-668 | One write keeps the link between buffer, visits, error and everything consumed; the buffer stays within the limit. |
| LineWriter.SnapshotLineWriter.Finish | internal/repository/service.go:670-675 | The last line counts even without a newline. |
| LineWriter.Stream | internal/repository/service.go:629-675 | However the bytes are cut into writes, visits and final error are those of one scan over the lines of the whole input. |
| SummaryCollector.DescribesIsUnique | internal/restic/engine.go:619-691 | The declarative reading of a log (last summary, largest total, every failed item) determines the result. |
| SummaryCollector.EverythingIsConsidered | internal/restic/engine.go:629-691 | No line of the log is left out, the unfinished last one included, and each is read up to one mebibyte. |
| SummaryCollector.ResticSummaryCollector.Write | internal/restic/engine.go:629-654 | One write keeps the collector's fields equal to that reading of everything consumed. |
| SummaryCollector.ResticSummaryCollector.Result | internal/restic/engine.go:680-691 | The result is that reading, the unfinished last line included. |
| SummaryCollector.Collect | internal/restic/engine.go:619-691 | However the log is cut into writes, the result is the reading of its lines, each cut at the limit. |
| FileEvidence.RunSummary.CompleteFileEvidence | internal/restic/engine.go:584-611 | Completion gives the least expected count that everything known allows, and the failures as the difference. |
| FileEvidence.CompletedCountsBalance | internal/restic/engine.go:584-611 | Expected equals processed plus failed without overflow; an incomplete backup shows a failure exactly when there is room to count one. |
| FileEvidence.CompletionIsUnique | internal/restic/engine.go:584-611 | The promise fixes the completed summary. |
| FileEvidence.CompletionIsIdempotent | internal/restic/engine.go:584-611 | Completing again changes nothing. |
| FileEvidence.Conclude | internal/restic/engine.go:187-214 | Outcome, error and summary of every exit. Exit code 0 of a directory backup is partial exactly when the counts as found show a missed file; exit code 3 is partial with a failure counted. |
| FileEvidence.SuccessDespiteObservedFailures | internal/restic/engine.go:187-214 | Two logs with a failed item that exit code 0 turns into a success: without a processed count, and with one that leaves no room. |
| FileEvidence.CompletionCountsMissedFilesIff | internal/restic/engine.go:584-611 | Completion of a finished backup counts a failure exactly when the counts as found show a missed file. |
| FileEvidence.SummaryShowsMissedFilesIff | internal/restic/engine.go:528-582 | The summary shows a missed file exactly when the log does. |
| FileEvidence.BackupOutcome | internal/restic/engine.go:160-214 | From the chunks of the output to the outcome: the log is what its lines mean however they were cut, and exit code 0 is partial exactly when that log shows a missed file. |
| Manifest.ParseInverts | internal/restoreverification/service.go:247-254 | A parser reads the manifest stream back, for every list of entries. |
| Manifest.StreamDeterminesTree | internal/restoreverification/service.go:185-254 | Equal streams come from equal ordered lists of paths and contents. |
| Manifest.HashRestoredTree | internal/restoreverification/service.go:185-245 | The walk hashes exactly the encoding of the files, counts their bytes and never passes the maximum; when it succeeds. |
| Manifest.HashFile | internal/restoreverification/service.go:206-238 | One file: what is hashed and counted on success, and on each failure that at most one byte past the limit was read. |
| Base64.RoundTrip | internal/database/metadata.go:62-71 | Decoding inverts unpadded base64url (section 5 of RFC 4648, padding omitted as in section 3.2) on all bytes. |
| MetadataTags.EncodeMetadataTags | internal/database/metadata.go:62-71 | Tags are written exactly for complete metadata. |
| MetadataTags.ValidateCompleteMetadata | internal/database/metadata.go:108-118 | Metadata is complete exactly when every field is non-blank and the engine is a known one. |
| MetadataTags.DecodeMetadataTags | internal/database/metadata.go:73-106 | The scanning loop decodes what the one-pass specification says, or fails as it does. |
| MetadataTags.TagsRoundTrip | internal/database/metadata.go:62-106 | Any permutation of the written tags mixed with foreign tags decodes to the original metadata. |
| MetadataTags.DecodedFieldsStandInTags | internal/database/metadata.go:73-106 | Each decoded non-blank field stands, encoded, in exactly one tag. |
| ScopeMatch.MatcherIsTheMeaning | internal/agentfilesystem/scope.go:311-326 | The recursive matcher accepts exactly the paths that can be cut into runs matching the pattern's segments. |
| ScopeMatch.CoversIsTrailingAny | internal/agentfilesystem/scope.go:287-326 | Matching a path or an ancestor is matching the pattern with `**` appended. |
| ScopeMatch.CoversDescendants | internal/agentfilesystem/scope.go:287-299 | What lies below a matched path is matched. |
| ScopeMatch.AdjacentAnyCollapse | internal/agentfilesystem/scope.go:311-326 | Two adjacent `**` mean one. |
| ScopePath.MatchScopePathOrAncestor | internal/agentfilesystem/scope.go:287-299 | The candidate loop finds a match exactly when the path or what stands before one of its slashes matches. |
| ScopePath.AncestorLoopCovers | internal/agentfilesystem/scope.go:287-309 | On path text, whatever slashes it has, this is matching the segments up to one that is a name. |
| ScopePath.Excludes | internal/agentfilesystem/scope.go:287-326 | A path is excluded exactly so; a path without empty segments exactly when the rule with `**` appended means it. |
| ScopePath.ExclusionDescends | internal/agentfilesystem/scope.go:287-326 | Exclusion is closed under descent on path text, whatever slashes the paths have. |
| ScopeScan.FilesPartition | internal/agentfilesystem/scope.go:185-226 | Total files are the included, the excluded, those that need attention and the unreadable ones. |
| ScopeScan.RulesCoverExcluded | internal/agentfilesystem/scope.go:163-172 | No rule matches more files than are excluded, and together the rules match at least those. |
| ScopeScan.WalkIsReported | internal/agentfilesystem/scope.go:97-237 | Entries carry the ordinals 1, 2, ... and name rules exactly when excluded; scanned items stay within the limit. |
| ScopeScan.WalkTakesIn | internal/agentfilesystem/scope.go:109-237 | The walk takes in every callback up to a cancellation or the first item past the limit: one entry for each item that reports one, in order, with scanned and lost items counted. |
| ScopeScan.EntryDescribes | internal/agentfilesystem/scope.go:131-226 | What an entry says of its item: exactly when it is excluded, unreadable or needs attention, its size, reason and rules. |
| ScopePreview.MatchedRules | internal/agentfilesystem/scope.go:163-172 | The rules found for an entry are exactly those that match, in order. |
| ScopePreview.Scan.Visit | internal/agentfilesystem/scope.go:109-235 | One callback keeps every count of the summary equal to a count over the reported entries. |
| ScopePreview.Scan.Count | internal/agentfilesystem/scope.go:163-226 | Counting one entry keeps all tallies. |
| ScopeUpload.ValidateFor | internal/agentprotocol/types.go:213-251 | The loop accepts exactly the chunks with valid identity, 1 to 128 acceptable entries and rising positive ordinals. |
| ScopeUpload.CheckEntry | internal/agentprotocol/types.go:222-249 | An entry passes exactly when path, size, reason and rule numbers are within bounds. |
| ScopeUpload.CheckInventoryPath | internal/agentprotocol/types.go:253-263 | The loop accepts exactly relative paths of bounded length, without control characters, empty segments or dots. |
| ScopeUpload.CheckAgentId | internal/agentprotocol/types.go:128-140 | The loop accepts exactly identifiers of bounded length and allowed characters. |
| ScopeUpload.Uploader.Flush | internal/agentruntime/runtime.go:286-304 | A flush uploads the pending entries as the next numbered chunk, or changes nothing; exactly when. |
| ScopeUpload.Uploader.Visit | internal/agentruntime/runtime.go:305-319 | Taking an entry keeps delivered plus pending equal to everything taken, and every sent chunk valid and within 512 KiB estimated; pending entries are flushed first exactly when the entry would be one too many or too much. |
| ScopeUpload.AcceptableRunIsValid | internal/agentprotocol/types.go:213-251 | Consecutive reported entries form a valid chunk as soon as each is acceptable and the identities are valid. |
| ScopeUpload.DeliveredIsAcceptable | internal/agentprotocol/types.go:213-251 | Everything delivered was acceptable. |
| ScopePreview.Preview | internal/agentruntime/runtime.go:283-331 | The uploaded chunks always hold a beginning of the walk's entries, on success all of them with a summary that accounts for them; with a working receiver it succeeds exactly when every entry is acceptable, the identities are valid and nothing is cancelled. |
| SnapshotBrowser.Browse | internal/repository/service.go:459-497 | A query is answered exactly when snapshot id, path, search text, limit and cursor are allowed and the listing can be read; the page is exactly the stretch of matches after the offset, with a cursor exactly when more follow. |
| SnapshotBrowser.CheckSnapshotId | internal/repository/service.go:769-779 | The loop accepts exactly one to 128 letters and digits. |
| SnapshotBrowser.BrowseAll | internal/repository/service.go:459-497 | Following the cursors shows every match exactly once, in order, in a number of pages that the page size fixes; once the first page is answered, all are. |
| SnapshotBrowser.Compare | internal/repository/service.go:710-750 | Whatever order the maps are walked in: the counts are those of the added, removed and modified paths, what counts as modified, and the examples are the first entries of the sorted list of all changes with their sizes. |
| SnapshotBrowser.CompareSnapshots | internal/repository/service.go:677-767 | Exactly which comparisons are answered; incomplete exactly when a listing has more than 1,000,000 paths; otherwise the comparison is of all listed nodes, the last of each path, with at most the limit of examples. |
| SnapshotBrowser.ListIsUnique | internal/repository/service.go:738-749 | There is only one such list. |
| SnapshotBrowser.ComparisonIsUnique | internal/repository/service.go:710-750 | So the whole comparison is fixed by the two listings. |
| SnapshotBrowser.NothingChangedIff | internal/repository/service.go:718-737 | A comparison is empty exactly when both listings agree. |
| SnapshotBrowser.ComparisonIsSymmetric | internal/repository/service.go:718-737 | Comparing the other way round exchanges added and removed paths. |
| SnapshotBrowser.IndexNodes | internal/repository/service.go:752-767 | The index holds the last node of each path looked under, within the limit, and is incomplete exactly when there are more paths than that. |
| Alerts.TextIsInjective | internal/alerting/reconciler.go:178-180 | Different objects or aspects never share a state key, whatever colons identifiers hold. |
| Alerts.CallTouchesOneKey | internal/alerting/service.go:47-67 | A raise or resolve changes its own key and, through the notifier, only the channel's alert. |
| Alerts.Service.Raise | internal/alerting/service.go:47-56 | The stored alerts after a raise, that exactly a new and more than informational alert is announced, and when it reports an error. |
| Alerts.Service.Resolve | internal/alerting/service.go:58-67 | The stored alerts after a resolution, what is announced, and when it reports an error. |
| Alerts.Service.Deliver | internal/alerting/service.go:113-145 | A delivery settles or raises only the channel's own alert. |
| VerdictKeys.OneVerdictPerKey | internal/alerting/reconciler.go:108-157 | With the store's primary keys, no key is judged twice and each verdict is about an object that exists. |
| VerdictKeys.RemovedObjectsHaveNoVerdict | internal/alerting/reconciler.go:464-471 | A key about an object the facts do not list has no verdict. |
| VerdictKeys.TasksAreJudged | internal/alerting/reconciler.go:178-213 | The verdicts on an existing task's keys are the task's. |
| Settlement.SettleIsPointwise | internal/alerting/reconciler.go:438-462 | A sequence of decisions on different keys leaves each key as its own decision says, and calls the store exactly for those that change. |
| Settlement.ExpectedByMembers | internal/alerting/reconciler.go:464-471 | Judged keys follow their verdicts, unseen alerts of managed kinds go, all else stays. |
| Settlement.WholeRun | internal/alerting/reconciler.go:43-159 | So the whole run is the direct function of the facts. |
| Settlement.PartialRun | internal/alerting/reconciler.go:125-136 | A run that stops early has taken some keys where they belong and left the others. |
| Reconciliations.Reconciliation.Raise | internal/alerting/reconciler.go:438-449 | No call for an alert that is active with the same signal; the copy follows only a call without error. |
| Reconciliations.Reconciliation.Resolve | internal/alerting/reconciler.go:451-462 | No call for an alert that is not active. |
| Reconciliations.Reconciliation.ReconcileTask | internal/alerting/reconciler.go:178-213 | The branches of the code bring about the task's two verdicts. |
| Reconciliations.Reconciliation.ReconcileRepository | internal/alerting/reconciler.go:215-268 | The same for a repository's five verdicts. |
| Reconciliations.Reconciliation.ReconcileAgent | internal/alerting/reconciler.go:270-323 | The same for an Agent's four verdicts. |
| Reconciliations.Reconciliation.ReconcileSchedule | internal/alerting/reconciler.go:325-343 | The same for a plan's or a maintenance policy's schedule. |
| Reconciliations.Reconciliation.ReconcileVerification | internal/alerting/reconciler.go:345-412 | The same for a restore verification policy's four verdicts. |
| Reconciliations.Reconciliation.ResolveRemovedObjects | internal/alerting/reconciler.go:464-471 | In whatever order, exactly the unseen alerts of managed kinds are resolved, each once. |
| Reconciler.Reconcile | internal/alerting/reconciler.go:43-159 | Without a store error every alert is as the facts' fields say, for all kinds of alerts and all their thresholds; the run stops exactly at the first repository whose forecast is asked for and cannot be read, and then the rest is untouched. With store errors each other key ends so; one call per key that changes; errors are reported exactly when a call failed. |
| AlertRules.ReconciledFollowsTheFacts | internal/alerting/reconciler.go:178-471 | The verdicts amount to the rules on the fields: keys, kinds, severities, thresholds, names, and the removal of what has no object. |
| AlertRules.AdvancedIsStopped | internal/alerting/reconciler.go:125-136 | The same for a run that stopped: tasks and the repositories before the unreadable forecast, nothing else. |
| Reconciler.ExpectedIsStable | internal/alerting/reconciler.go:43-159 | What the facts want does not change by being brought about. |
| Reconciler.ReconcileAgain | internal/alerting/reconciler.go:43-159 | After a run without a store error, a second run on the same facts and time makes no raise or resolve call. |
| Reconciler.ObserveRun | internal/alerting/service.go:80-94 | Observing an ended run sets the run alert with the severity its status has, clears the stale alert on success and touches nothing else; exactly when it reports an error. |
| Reconciler.ObserverAgrees | internal/alerting/service.go:80-111 | The reconciler keeps what the observer left if and only if the task is enabled or the run succeeded. |
| AppFiles.UndoRestores | internal/appinstall/service.go:266-279 | Replaying the log backwards gives every logged file back what it held first, however often it was written and whatever happened since. |
| AppInstall.InstallCompanions | internal/appinstall/service.go:235-264 | Companions are installed with a faithful log, or all files are back when the restore steps succeed. |
| AppInstall.RestoreInstalledFiles | internal/appinstall/service.go:266-279 | Without an error, the loop is the undo of the whole log. |
| AppInstall.UndoneInstallation | internal/appinstall/service.go:84-105 | What a late failure puts back, for any companions: every other file; the old binary exactly when no companion was installed over it; a record in order exactly when both or none of binary and record were overwritten, or their digests agree. |
| AppInstall.OldBinaryIsBackIff | internal/appinstall/service.go:84-105 | Those two conditions in terms known beforehand: the names asked for and the files beside the current program. |
| AppInstall.CompanionNamedLikeTheBinary | internal/appinstall/service.go:84-105 | A run of the installation that leaves the new program behind. |
| AppInstall.CompanionNamedLikeTheRecord | internal/appinstall/service.go:84-105 | A run of the installation that leaves the old program with a record that does not match. |
| AppInstall.InstallCurrent | internal/appinstall/service.go:57-106 | Success: new binary, matching record, companions in place, service running it and healthy if checked. Exactly when the binary is replaced at all and when the service decides; on a working machine it succeeds exactly if the program is there and the companion names are safe. Failure with working restore steps: before the companions everything is as it was, after them exactly what the undo puts back. |
| AppInstall.Activate | internal/appinstall/service.go:81-106 | Success exactly when the service starts and, if checked, is healthy; otherwise the undo, and which program the service is left with. |
| AppUpdate.Installer.Rollback | internal/appinstall/service.go:281-308 | The old program is put back exactly when the saved copy can be read and written, and verified exactly when record, restart, check and report go through; what was reported. |
| AppUpdate.Installer.Update | internal/appinstall/service.go:131-188 | Exactly which way an update ends, by the calls and reports that fail; which program is installed then, and whether it is in service. |
| AppUpdate.Reporter.Stage | cmd/restic-control/managed_update_command.go:40-51 | The rollback flags count only recorded stages. |
| AppUpdate.PerformManagedUpdate | cmd/restic-control/managed_update_command.go:132-172 | The same for what is recorded. On a working disk the old program is always put back, and with a working service recorded as rolled back. `success` and `rolled_back` are true of the machine, health included; exactly when "old version kept" is recorded, and when it is not true. |
| AppUpdate.KeptIsFalseWithoutTheLastReport | cmd/restic-control/managed_update_command.go:142-163 | With any reporter that loses only the last report, those words are recorded while the new program is installed and runs. |
| AppUpdate.KeptIsFalseWithoutTheRollbackReport | cmd/restic-control/managed_update_command.go:142-163 | With any reporter that cannot record the start of a rollback, they are recorded while the new program is installed. |
| DatabaseRestore.Restore | internal/restore/service.go:100-171 | Over every sequence of command results: exactly when it succeeds and when its own target is dropped again; a drop follows only this run's own create and mark and an allowing check; an existing database is never dropped, and not touched unless found empty; each failure past the first change is exactly one of cleaned and to be cleaned. |
| DatabaseRestore.OpenTarget | internal/restore/service.go:100-134 | Exactly when there is a target to import into, found empty or created and marked by this run; a database that was there before is unchanged. |
| DatabaseRestore.NonEmptyIsLeftAlone | internal/restore/service.go:109-121 | In every lawful sequence of commands, a target that was not found empty was only asked about: nothing that changes the server was run. |
| DatabaseRestore.FailedRestore | internal/restore/service.go:173-189 | The clean-up after a failure: the target is dropped exactly when this run created it and the check and the drop go through. |
| DatabaseRestore.Server.Run | internal/restore/service.go:109-160 | What a command does to the database, also when it reports an error after all. |
| ProtectionSetup.Store.ApplyItem | internal/protectionsetup/service.go:222-271 | An item's repository, task and policy are made unless they are there; without error it is protected; with working storage that is exactly when its repository is usable or can be made so and what is made is valid. |
| ProtectionSetup.Store.Initialize | internal/repository/service.go:306-330 | Only an uninitialized repository is initialized, and it is ready exactly if the call succeeds. |
| ProtectionSetup.Store.UpsertPlan | internal/protectionsetup/service.go:273-299 | The plan lists exactly the tasks of the ready items, in order. |
| ProtectionSetup.Store.Apply | internal/protectionsetup/service.go:155-220 | With any storage call failing, every state on the way is sound; no error means stored as ready. With working storage every item is recorded as how it went, whatever happened to the others, and it succeeds exactly when the draft is ready already, or is not cancelled and no unfinished item has an unusable repository or an invalid task or policy. |
| ProtectionSetup.Store.ApplyRepeatedly | internal/protectionsetup/service.go:155-220 | However often it is applied and recovered, every state is sound: no repository or task is created twice, and a ready item is protected; with working storage and nothing in the way it ends ready. |
| ProtectionSetup.Store.Recover | internal/store/protection_setup.go:207-217 | Exactly an interrupted draft becomes resumable, and nothing else changes. |
| ProtectionSetup.ReadyMeansProtected | internal/protectionsetup/service.go:155-299 | A draft stored as ready has every item protected and a plan of exactly their tasks in order. |

## Left out

- HTTP, TLS, SSH, SFTP, SMTP, process execution and the text of commands: foreign effects without a visible meaning.
- JSON, regular expressions, `path.Match` on one segment, SHA-256 and AES-GCM are parameters; nothing is assumed of them.
- `TrimSpace` and `ToSlash` on exclusion rules, and `TrimSpace` and `Clean` on browsing paths and search texts: they are taken as already trimmed and clean, with forward slashes.
- Text that is not valid UTF-8.
- The backup service without a repository locker, and the deletion of repositories and tasks while they run.
- A crash between a partial backup and its tag, and an Agent's report that never arrives, are outside the protection theorem; overlapping runs and maintenance before a report are shown to break it, and exactly when.
- When restic wrote nothing to the collector, the engine parses what was captured of standard output instead.
- Snapshots are known by an identity that restic keeps when it rewrites a tag; the rewritten id is not modelled.
- A restic run whose snapshot id could not be read protects nothing and is modelled as taking no snapshot.
- Rotation takes the store's commit as atomic, as its transaction is.
- Suggestions of a scope preview are counted like exclusions and are not modelled; byte sums are unbounded integers.
- Unknown spellings of entry types and dispositions are refused by `ScopeUpload.ValidateFor` in the code; here they cannot be written.
- The JSON form of a paging cursor and its fingerprint: a cursor is its offset, used with the query it was made for.
- Which nodes a browsing query matches is a parameter; a listing that cannot be decoded gives no page.
- The delivery of Agent results with its capped backoff, and the choice of a restore verification's status: easy beside the retry loop and the reconciler.
- Alert history, first and last times and occurrence counts: the model keeps the active alerts and their signals.
- Alert wording is a parameter, so that equal facts give equal words; object type, target page and recovery condition are part of it.
- A change of the stored alerts by others while a reconciliation runs.
- Percentages of capacity are compared as reals; the code rounds to 64-bit floats.
- The store's check that an alert's texts are not blank appears as a store error.
- A failed file write is taken to have no effect; the code may report a failed directory sync after a successful rename.
- File modes, links and changes of a file while it is read; what is no regular file is an error to read and to write.
- Uninstalling, and creating the data directory beyond whether it succeeds.
- The pipe between dump and import is reduced to their two results and what reached the database.
- Other clients changing a database between a restore's commands; the cleanup check is what guards against them.
- The task ids of a draft's items are taken to be different and not in use by other tasks, as they are drawn at random.
- The identifiers in each listing are taken to be different, as the store's primary keys make them.
- Cancelling a protection draft, its secrets, templates and the validation of its input.
- The status, stage and summary an operation is finished with; that it is finished once is modelled.
- Field-by-field validators, command-line parsing, wiring, message texts and the web interface: no content beyond their bodies.
- RunController.Controller.Execute: describes one call while the rest of the system stands still, so a call that must wait for a mutex ends there; interleavings are in `RunControl`.
