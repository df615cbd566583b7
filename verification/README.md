# Verified models of the Yiyu workspace's stateful protocols

This project models the parts of the workspace whose correctness spans several steps, tables or
processes, and proves what they keep over every run:

- **the local operation ledger and the mutations built on it** (`OperationLedger`, `LedgerRuns`,
  `LedgerRepository`, `ReplayableMutation`, `MutationClient`, `GeneratedValue`): seven tables kept in
  step by `begin`, `update`, `retry` and `record_blocked`, and a cloud mutation that freezes its first
  payload so that it happens once however often the client dies or a message is lost or repeated;
- **the bounded, coalescing dispatcher** (`BoundedDispatch`): a concurrent object whose steps
  interleave freely;
- **the offline database upgrade** (`OfflineRebuild`, `RebuildAgreement`, `RebuildConnection`,
  `UpgradeSwap`, `LocalUpgrade`): a v8 or v9 database rebuilt as v10 or refused, compared
  with two migrators written independently of it, inside a file protocol that may be cut off anywhere;
- **the task projection cache** (`TaskProjection`, `TaskSnapshot`, `LocalTaskProjection`): snapshots
  applied row by row, with rows deferred until their foreign-key parents arrive;
- **the meeting repository** (`MeetingMinutes`, `MinutesGuarantees`, `MinutesCalls`,
  `MeetingRepository`): version chains of transcriptions and minutes, and the guard that ties a
  publication to the current transcription;
- **the resumable installer download** (`InstallerDownload`), **the 16:10 window arithmetic**
  (`WindowLayout`) and **transcript chunking with guarded revision** (`TranscriptChunks`).

`Options`, `Json` and `Texts` hold the few types and string operations the others share. Code that
works by changing tables, fields or files is a class with those fields; each of its methods is proved
equal to a function of the state before the call, and the theorems are about those functions and about
runs of them. Beside the theorems over runs stand lemmas that say, in the source's own states, columns
and numbers and without the functions in between, what each call answers and writes. `dafny verify
dfyconfig.toml` checks the whole project.

## What the proofs found

Several properties hold only under a condition. Each is stated with the exact condition and, where
that does not name one, an input or run that breaks it.

- The ledger's tables agree with the receipt unless only a `begin` in another state than `processing`
  has written them. Callers in `backend/app/ui_domains/platform_integrations.py` (lines 1062, 1181 and
  1854) begin in `completed` or `queued`; an operation begun as `completed` is absorbed at once, and
  its command, attempt, event and idempotency record never settle (`LedgerRuns.LedgerAgreement`,
  `LedgerRuns.BornCompletedNeverSettles`).
- The dead-letter count needs recognised update states and operations that do not begin as failed
  (`LedgerRuns.UnrecognisedStateMiscounts`, `LedgerRuns.RetryAccountsIffFailed`). A `blocked` receipt
  is reported as retryable, but `retry` ignores it and no call ever changes it again
  (`LedgerRuns.TerminalForGood`).
- A dispatcher restarted between the two halves of a `close` loses permits; every other restart
  conserves them (`BoundedDispatch.RestartConservesIff`, `BoundedDispatch.CloseThenStartLeaks`).
- The direct rebuild keeps the source's relations exactly when every meeting link names both its ends:
  a NULL end, which the schema allows, is spelt "None" and makes up a relation with the meeting or plan
  of that name (`RebuildAgreement.RebuildIsLosslessIff`, `RebuildAgreement.UnnamedMeetingIsMadeUp`).
- The direct rebuild and the migrators differ exactly when a link with a NULL end spells something no
  stored link says (`RebuildAgreement.DirectEqualsStepwiseIff`,
  `RebuildAgreement.UnnamedMeetingDiverges`). The migrators also drop nested plans without a word; the
  rebuild refuses them (`RebuildAgreement.NestedPlanIsDropped`). The row-count check after a rebuild
  can never fail (`RebuildAgreement.RowCountsAlwaysMatch`).
- An upgrade is safe against crashes exactly when the live file is complete without its write-ahead
  log (`UpgradeSwap.SwapSafetyIff`, `LocalUpgrade.LogMovedAwayIsMissed`). The backup step opens the
  live file to write, and closing the last connection to a database checkpoints its log, so what fails
  is a log that outlives that connection, such as one another process holds open. When the verification
  after the swap fails, the program puts a complete database back by itself exactly when no crash falls
  inside the restore (`UpgradeSwap.RestoreSafetyIff`); such a crash leaves no live database, and later
  runs take that for a fresh installation, although the copy still lies among the backups
  (`UpgradeSwap.InterruptedRestoreIsFinal`).
- A complete snapshot leaves exactly its ids current exactly when all ids were sent trimmed: rows are
  stored under the raw id and spared under the stripped one (`TaskSnapshot.SnapshotAgreementIff`,
  `TaskSnapshot.UntrimmedIdGoesStale`).
- Minutes and transcripts that contain a carriage return fail their own integrity check, because
  files are written as bytes and read back in text mode (`MinutesGuarantees.FreshDraftPublishableIff`,
  `MinutesGuarantees.FreshTranscriptUsableIff`, `MinutesGuarantees.ReturnMakesDraftUnpublishable`,
  `MinutesGuarantees.ReturnMakesTranscriptUnusable`).
- Recording a publication marks whatever draft is current by then: what was sent exactly when the
  current version still has its hash, that is, when no draft was stored since or the last one has the
  same text (`MinutesGuarantees.SentIsRecordedIff`, `MinutesGuarantees.LaterDraftIsMarkedPublished`,
  `MinutesGuarantees.SentIsNotRecorded`).
- Window normalisation takes several passes to settle, and an area one pixel wide gives a height of
  zero (`WindowLayout.StopsIff`, `WindowLayout.OnePassIsNotEnough`, `WindowLayout.FlatIff`).
- Corrected transcripts keep the speakers but not the number of lines, although the prompt asks the
  model for both. A line is lost for each chunk before the last that ends in a blank line and takes
  its revision, and one more when the transcript itself ends in a blank line, even if every revision
  is refused (`TranscriptChunks.LinesKeptIff`, `TranscriptChunks.CorrectedCount`,
  `TranscriptChunks.FinalBlankLineIsLost`, `TranscriptChunks.TrailingBlankLineIsLost`).

## Assumptions

Hashes and stable ids are injective; fresh ids are new; JSON is carried without loss; a database
transaction and one statement under a lock are single steps. The cloud of the mutation protocol
answers a known key with the same payload again, refuses it with another payload, and applies a new key
at most once. Attempts under one idempotency key, transcriptions and drafts of one recording, and
upgrades of one database do not overlap; the programs do not protect the first two, and a file lock
does the last. Fence stripping, whose last step trims, leaves no line break at the end of an answer,
and a line feed is one of the line breaks.

## Model

| member | source | states |
|---|---|---|
| `OperationLedger.BegunKeeps` | backend/app/platform_integrations_local.py:259-359 | A fresh `begin` writes one hash into manifest, idempotency record, outbox, attempt and audit, and starts the failure count right; command, idempotency, attempt and outbox agree with the receipt if and only if it starts in `processing` |
| `OperationLedger.UpdatedAgrees` | backend/app/platform_integrations_local.py:463-549 | An update that takes effect makes every table agree with the new receipt and carry its hash, even rows that disagreed before |
| `OperationLedger.UpdatedAccounts` | backend/app/platform_integrations_local.py:476-542 | An update keeps the dead-letter and attempt count if and only if it does not move a `failed` command out of `failed` |
| `OperationLedger.RetriedAgrees` | backend/app/platform_integrations_local.py:575-627 | A retry leaves the receipt `queued` and every table agreeing with it |
| `OperationLedger.RetriedAccounts` | backend/app/platform_integrations_local.py:588-620 | A retry keeps the count if and only if the command is `failed` and its last attempt ended `failed_retryable` |
| `OperationLedger.FinishLatestIsLast` | backend/app/platform_integrations_local.py:493-507 | The MAX(attempt_no) update reaches the last attempt and no other |
| `OperationLedger.UpdateFilesByState` | backend/app/platform_integrations_local.py:463-549 | An update that takes effect, state by state: command and event are settled and published exactly for cancelled, completed and succeeded, sending and pending exactly for queued, processing and cancelling, failed otherwise; the idempotency record is closed exactly for the six terminal states; times, receipt flags, entries and history with them |
| `OperationLedger.FailureOpensLetter` | backend/app/platform_integrations_local.py:518-541 | A dead letter is opened exactly when the command fails and none is open, with the given code and message or the stock ones |
| `OperationLedger.RetryRequeues` | backend/app/platform_integrations_local.py:575-627 | A retry adds attempt n + 1, takes command, event and record back, resolves every open letter and no other, and keeps the receipt's other entries |
| `OperationLedger.BeginWaits` | backend/app/platform_integrations_local.py:259-359 | A fresh begin files the caller's request with everything waiting, and the caller's entries beside the four the call sets, with the defaults where it gives none |
| `OperationLedger.ReplayKeepsReceipt` | backend/app/platform_integrations_local.py:236-246 | A repeated begin answers the stored receipt, marked as a replay |
| `LedgerRuns.LedgerAgreement` | backend/app/platform_integrations_local.py:132-168 | After every run of begin, update and retry with any arguments, all hashes are the current receipt's, and the tables agree with its state unless only a `begin` in another state than `processing` wrote them (if and only if) |
| `LedgerRuns.FailureAccounting` | backend/app/platform_integrations_local.py:493-542 | After every run whose updates name recognised states and whose begins do not start failed: attempts 1..n, all but the last ended `failed_retryable`, a dead letter open exactly when the command is `failed`, and n - 1 letters besides it |
| `LedgerRuns.RetryAccountsIffFailed` | backend/app/platform_integrations_local.py:571-620 | The exact condition on a retry that takes effect: the count survives if and only if the command row says `failed` |
| `LedgerRuns.RetryFromBirthMiscounts` | backend/app/platform_integrations_local.py:265-265 | A begin in `failed_retryable` and a retry reach a ledger whose count is wrong |
| `LedgerRuns.UnrecognisedStateMiscounts` | backend/app/platform_integrations_local.py:476-482 | An unrecognised state is filed as failed without being terminal, and completing the operation afterwards leaves its dead letter open |
| `LedgerRuns.TerminalAbsorbs` | backend/app/platform_integrations_local.py:459-462 | In a terminal operation the only call that changes any row is `retry` from `failed_retryable` |
| `LedgerRuns.TerminalForGood` | backend/app/platform_integrations_local.py:571-574 | No run of calls changes an operation in one of the five other terminal states, `blocked` included |
| `LedgerRuns.BornCompletedNeverSettles` | backend/app/ui_domains/platform_integrations.py:1055-1064 | An operation begun as `completed`, as two callers do, keeps a `sending` command, a `pending` event and a `processing` attempt through every later run |
| `LedgerRuns.HolderIsUnique` | backend/app/platform_integrations_local.py:222-229 | A scope and key name at most one operation in every well-formed ledger |
| `LedgerRuns.BeginIsFirstWriteWins` | backend/app/platform_integrations_local.py:219-257 | `begin` is one step of a first-write-wins map from scope and key to command type, payload and operation; a different type or payload is rejected with nothing changed |
| `LedgerRuns.ClaimIsKept` | backend/app/platform_integrations_local.py:247-257 | No call changes what a used key stands for |
| `LedgerRuns.FirstWriteWins` | backend/app/platform_integrations_local.py:203-632 | Over whole runs a used key stands for the same command type, payload and operation |
| `LedgerRuns.RecordBlockedSettles` | backend/app/platform_integrations_local.py:634-669 | Whenever `record_blocked` answers, its key is claimed by a terminal operation: newly blocked or as an earlier call left it |
| `LedgerRuns.RecordBlockedIsRun` | backend/app/platform_integrations_local.py:646-669 | `record_blocked` is a run of at most two orderly calls, so what holds over runs holds for it |
| `LedgerRuns.CallAnswers` | backend/app/platform_integrations_local.py:451-462 | Update and retry are refused exactly for an operation that is not there, and otherwise answer the receipt on record after the call |
| `LedgerRuns.CallTakesEffectIff` | backend/app/platform_integrations_local.py:459-462 | Exactly by the state it finds an update or a retry takes effect; otherwise nothing is written |
| `LedgerRuns.OutboxOverRuns` | backend/app/platform_integrations_local.py:508-541 | Over all runs an event is published exactly when it has a time of publication; over orderly runs it is undeliverable exactly when a dead letter of its operation is open |
| `LedgerRuns.BeginFilesRequest` | backend/app/platform_integrations_local.py:262-357 | A begin on a free key adds one operation under the caller's key, type, aggregate, payload and principal, and changes no other |
| `LedgerRuns.BlockingBegins` | backend/app/platform_integrations_local.py:646-658 | Between its two calls `record_blocked` has an operation that is processing, retryable and not polled |
| `LedgerRuns.RecordBlockedTells` | backend/app/platform_integrations_local.py:646-669 | On a new key: blocked with the given code, message and blocker, command and event failed, one open letter that says the same |
| `LedgerRuns.RecordBlockedOnHeld` | backend/app/platform_integrations_local.py:659-669 | On a used key: refused for another type or payload, a replay for a final operation, and otherwise blocked as told |
| `LedgerRepository.LocalPlatformOperationRepository.WriteReceipt` | backend/app/platform_integrations_local.py:132-168 | The receipt is rewritten and its hash carried into manifest and idempotency record, and nowhere else |
| `LedgerRepository.LocalPlatformOperationRepository.Begin` | backend/app/platform_integrations_local.py:203-364 | The seven tables after `begin`, as the ledger's begin says, with the same result or error |
| `LedgerRepository.LocalPlatformOperationRepository.Update` | backend/app/platform_integrations_local.py:431-554 | The seven tables after `update` |
| `LedgerRepository.LocalPlatformOperationRepository.Retry` | backend/app/platform_integrations_local.py:556-632 | The seven tables after `retry` |
| `LedgerRepository.LocalPlatformOperationRepository.RecordBlocked` | backend/app/platform_integrations_local.py:634-669 | The seven tables after `record_blocked` |
| `ReplayableMutation.ExactlyOnce` | backend/app/ui_idempotency.py:47-100 | For every interleaving of attempts, crashes, late and repeated deliveries and other clients: every message sent is the same message under the cloud key, the cloud changes at most once under it, and every return is the response of that change |
| `ReplayableMutation.ReturnedIsReplayed` | backend/app/ui_idempotency.py:68-70 | Once an attempt has returned, the next one returns the same response without sending anything or changing anything |
| `ReplayableMutation.AttemptReturns` | backend/app/ui_idempotency.py:87-100 | After any crashes and losses, the next undisturbed attempt returns, if the cloud accepts or already has |
| `ReplayableMutation.AttemptIsPlay` | backend/app/ui_idempotency.py:47-100 | An undisturbed attempt is one of the runs the exactly-once theorem speaks of |
| `ReplayableMutation.FreezeKeeps` | backend/app/ui_idempotency.py:74-85 | Freezing the first payload keeps the invariant whatever the factory answers |
| `ReplayableMutation.FreezeStores` | backend/app/ui_idempotency.py:74-85 | Freezing stores payload, its hash and the cloud key, and keeps every other entry |
| `ReplayableMutation.AttemptFilesIntent` | backend/app/ui_idempotency.py:52-67 | The first attempt files intent, type and aggregate under the operation key |
| `ReplayableMutation.DeliverKeeps` | backend/app/ui_idempotency.py:87-93 | A message delivered at any time, any number of times, keeps the invariant |
| `MutationClient.ReplayableCloudMutation` | backend/app/ui_idempotency.py:47-100 | The calls on repository and cloud, one after the other, are the undisturbed attempt of the model, with its result |
| `MutationClient.CloudService.Command` | backend/app/ui_idempotency.py:87-93 | The assumed cloud: a key seen with the same payload answers again, with another payload it is refused, and neither changes anything |
| `GeneratedValue.GeneratedOnce` | backend/app/ui_idempotency.py:118-141 | In every run of attempts with crashes and a generator that never answers the same twice, all returned values are equal |
| `GeneratedValue.AttemptReturns` | backend/app/ui_idempotency.py:118-141 | After any run, the next attempt that nothing interrupts returns: its own value if none is stored, else the stored one |
| `GeneratedValue.AttemptFilesInput` | backend/app/ui_idempotency.py:118-130 | The first attempt files input, type and aggregate under its key |
| `BoundedDispatch.CoalescingSafety` | backend/app/bounded_dispatch.py:49-78 | In every interleaving two unfinished executions of one generation never share a key |
| `BoundedDispatch.ArrivalJoins` | backend/app/bounded_dispatch.py:52-59 | A caller that arrives while a keyed job of the generation is unfinished gets that job's future and changes nothing |
| `BoundedDispatch.ArrivalAnswer` | backend/app/bounded_dispatch.py:47-72 | In every orderly run an arrival is busy exactly when the dispatcher is closed or all places are taken and it has nothing to join, joins exactly when a job of its key is under way, and is admitted exactly otherwise |
| `BoundedDispatch.OpensAndCloses` | backend/app/bounded_dispatch.py:97-117 | Only `close` closes, only `start` opens and makes a generation, and a shutdown reaches the current executor alone |
| `BoundedDispatch.JobCompletes` | backend/app/bounded_dispatch.py:76-84 | Registering, finishing and the two halves of the callback complete a job and touch no other |
| `BoundedDispatch.EntryRemovedByOwner` | backend/app/bounded_dispatch.py:76-84 | An in-flight entry goes away only by the completion of the job it names, or with its generation |
| `BoundedDispatch.PermitConservation` | backend/app/bounded_dispatch.py:59-84 | In every orderly interleaving and every generation, free permits plus unreleased admitted jobs are the capacity, no release exceeds the bound, and no submission raises |
| `BoundedDispatch.QuiescentIsFree` | backend/app/bounded_dispatch.py:76-84 | Once every callback has released, every generation has all its permits free |
| `BoundedDispatch.LateEventsAreIsolated` | backend/app/bounded_dispatch.py:76-106 | Late events of an old generation add no capacity to the new one and delete no entry of it |
| `BoundedDispatch.ArrivalConservesIff` | backend/app/bounded_dispatch.py:59-70 | An arrival keeps the permit count if and only if its submission does not raise |
| `BoundedDispatch.HalfClosedRestartLeaks` | backend/app/bounded_dispatch.py:97-117 | A `start` between the two halves of a `close` has its new executor shut down, and the next arrival loses a permit |
| `BoundedDispatch.RestartConservesIff` | backend/app/bounded_dispatch.py:97-117 | Every continuation of a restart conserves permits if and only if no `close` is half done |
| `BoundedDispatch.CloseThenStartLeaks` | backend/app/bounded_dispatch.py:97-117 | From the initial state: the first half of a close, a start, the other half and one arrival lose a permit |
| `BoundedDispatch.Dispatcher.Admit` | backend/app/bounded_dispatch.py:47-72 | The locked region of `run`: busy, joined, admitted, or a submission that raises |
| `BoundedDispatch.Dispatcher.CompletedReleases` | backend/app/bounded_dispatch.py:77-78 | The callback's first half releases the semaphore the job was admitted by |
| `BoundedDispatch.Dispatcher.CompletedRemoves` | backend/app/bounded_dispatch.py:79-82 | The callback's second half deletes the entry only if it is still this very future |
| `BoundedDispatch.Dispatcher.Start` | backend/app/bounded_dispatch.py:97-110 | A restart makes a new semaphore, executor and empty map; on an open dispatcher it does nothing |
| `OfflineRebuild.AssignTasksAccepts` | strict_common/offline_upgrade.py:175-187 | The task updates are all accepted if and only if every link names exactly one task and no two links the same one; then they are plain updates |
| `OfflineRebuild.CollectLinksAccepts` | strict_common/offline_upgrade.py:189-207 | The dictionary of meeting links is built if and only if links to one meeting agree; then it answers exactly what the links say |
| `OfflineRebuild.AssignMeetingsAccepts` | strict_common/offline_upgrade.py:208-216 | The meeting updates are accepted if and only if every entry names exactly one meeting |
| `OfflineRebuild.FirstLinkWins` | scripts/migrate_flat_planning_v9.py:72-79 | Guarded task updates amount to the first link of each task |
| `OfflineRebuild.LastLinkWins` | scripts/migrate_flat_planning_v9.py:88-92 | Unguarded meeting updates amount to the last link of each meeting |
| `OfflineRebuild.ActionLinksAreRows` | strict_common/offline_upgrade.py:174-178 | The task links are exactly the pairs that an action row names, both not NULL |
| `OfflineRebuild.MeetingLinksAreRows` | strict_common/offline_upgrade.py:189-203 | The meeting links are exactly the pairs that a meeting-plan lineage row and a planning-cycle member of its source set and scope name |
| `RebuildAgreement.RebuildAcceptsIff` | strict_common/offline_upgrade.py:163-216 | The v8 rebuild accepts a database if and only if no plan is nested, the task links fit, and the meeting links are consistent and fit |
| `RebuildAgreement.RefusalSays` | strict_common/offline_upgrade.py:163-216 | Why the rebuild refuses, first reason first: a nested plan, task links that do not fit, meeting links in conflict, meeting links that do not fit |
| `RebuildAgreement.DirectEqualsStepwiseIff` | strict_common/offline_upgrade.py:129-216 | Whenever the rebuild accepts, its business rows equal those of the two migrators in turn if and only if every link, spelt out, is what the last stored link of that meeting says |
| `RebuildAgreement.DirectEqualsStepwise` | scripts/migrate_flat_planning_v9.py:31-92 | In particular the two paths agree whenever every link names both its ends |
| `RebuildAgreement.V9RebuildIsTheMigrator` | scripts/migrate_mobile_recording_v10.py:31-52 | From v9 the rebuild is the v9 to v10 migrator, on every row |
| `RebuildAgreement.UnnamedMeetingDiverges` | strict_common/offline_upgrade.py:201-202 | A whole v8 database with one link whose meeting is NULL: the rebuild and both migrators accept it and their business rows differ |
| `RebuildAgreement.NestedPlanIsDropped` | strict_common/offline_upgrade.py:163-172 | Of an active v8 database with a plan within a plan: the rebuild refuses it, and the migrators accept it and leave the plan without its parent |
| `RebuildAgreement.RebuildIsLosslessIff` | strict_common/offline_upgrade.py:129-216 | Of whatever the rebuild accepts: the target's meeting-plan pairs are exactly the source's if and only if every meeting link names both its ends, and then so are the task-plan pairs and every recording is bound as `meeting` |
| `RebuildAgreement.RebuildHoldsSpeltLinks` | strict_common/offline_upgrade.py:174-216 | In every case the task-plan pairs are exactly the source's, the meeting-plan pairs exactly the source's with a NULL end spelt "None", and every recording is bound as `meeting` |
| `RebuildAgreement.UnnamedMeetingIsMadeUp` | strict_common/offline_upgrade.py:201-213 | A whole v8 database with one link whose meeting is NULL is accepted, and its target holds a pair that no link states |
| `RebuildAgreement.PlannedTasksAreActions` | strict_common/offline_upgrade.py:174-187 | On rows: in an accepted rebuild a task has a plan if and only if an action row names both |
| `RebuildAgreement.PlannedMeetingsAreLineage` | strict_common/offline_upgrade.py:189-216 | On rows: a meeting has a plan if and only if lineage and member rows say so, a NULL spelt "None" |
| `RebuildAgreement.V9RebuildKeepsColumns` | strict_common/offline_upgrade.py:129-160 | From v9 every shared column of every row is unchanged and every recording is bound as `meeting` |
| `RebuildAgreement.RebuildKeepsColumns` | strict_common/offline_upgrade.py:133-160 | Every other column that v8 and v10 share is unchanged in every row of every table |
| `RebuildAgreement.RowCountsAlwaysMatch` | strict_common/offline_upgrade.py:310-319 | The row-count check after the rebuild never fires, on any database |
| `RebuildAgreement.OneIdentityKept` | strict_common/offline_upgrade.py:239-280 | A rebuilt database has exactly one active identity, the new v10 one, with the generation of the source's newest |
| `RebuildAgreement.ActiveIdentityIsNewest` | strict_common/offline_upgrade.py:57-69 | The active identity is an active row that none was activated after; there is none exactly when no row is active |
| `RebuildAgreement.GenerationIsNewest` | strict_common/offline_upgrade.py:253-253 | The generation carried over is that row's own |
| `RebuildAgreement.BuildVerdict` | strict_common/offline_upgrade.py:226-333 | A build fails for want of an active identity, then for what its rows refuse, then for what the checks say, and succeeds otherwise |
| `RebuildAgreement.StampKeepsHistory` | strict_common/offline_upgrade.py:255-310 | Ledger rows stay, identity rows keep all but the active status, and one row is added to each |
| `RebuildAgreement.MigratorsCompose` | scripts/migrate_flat_planning_v9.py:93-105 | The two migrators in turn always run through on an active v8 database and leave one identity of the same generation |
| `RebuildAgreement.MigratedIff` | scripts/migrate_flat_planning_v9.py:93-105 | The migrators run through exactly on a database whose newest active identity is v8 |
| `RebuildAgreement.BuildAgainstMigrators` | strict_common/offline_upgrade.py:226-306 | The finished v10 database against the migrated one, identities included: the same business rows exactly when the meeting links are definite |
| `RebuildConnection.Connection.CopyTable` | strict_common/offline_upgrade.py:129-160 | The row loop inserts every source row by its common columns, in order, with `binding_kind` where the source lacks it |
| `RebuildConnection.Connection.ApplyV8Semantics` | strict_common/offline_upgrade.py:163-216 | The loops over plans, actions, links and dictionary end in the specified tables or the specified refusal |
| `RebuildConnection.Connection.BuildV10` | strict_common/offline_upgrade.py:226-331 | The table loop, the semantics, the identity and the checks end in the specified database with its row total, or are rolled back |
| `RebuildConnection.Connection.RewriteRelations` | scripts/migrate_flat_planning_v9.py:72-92 | The migrator's two update loops, nothing refused |
| `RebuildConnection.CollectMeetingLinks` | strict_common/offline_upgrade.py:189-207 | `setdefault` and compare, link by link: the dictionary in insertion order or the conflict |
| `UpgradeSwap.SwapSafety` | strict_common/offline_upgrade.py:412-438 | If the live file is complete without its log: at every step boundary of every run whose post-swap verifications pass, crashes and reruns anywhere, the live path holds the complete source or a complete verified rebuild, and an attempt under way has a complete backup |
| `UpgradeSwap.SwapSafetyIff` | strict_common/offline_upgrade.py:370-378 | That safety holds over all such runs if and only if the live file is complete without its log: the source itself or a verified rebuild of it |
| `UpgradeSwap.MovedLogIsMissed` | strict_common/offline_upgrade.py:371-375 | With a log that cannot be spared, three statements and a crash leave neither the source nor a rebuild of it on the live path |
| `UpgradeSwap.CheckpointedIff` | strict_common/offline_upgrade.py:371-374 | A log that holds nothing the live file lacks can be spared, and for a live file that is not itself current no other can |
| `UpgradeSwap.RestoreSafetyIff` | strict_common/offline_upgrade.py:381-389 | With failing verifications and crashes anywhere: a run ends with a complete live path, or inside a restore with the complete backup it is about to copy back, if and only if no crash fell inside a restore |
| `UpgradeSwap.FaultMovesLiveAway` | strict_common/offline_upgrade.py:381-384 | Every outdated database that can be rebuilt is brought by one failed verification to no live file, with the source in the backup |
| `UpgradeSwap.InterruptedRestoreIsFinal` | strict_common/offline_upgrade.py:397-398 | From every outdated database that can be rebuilt: a failed verification and a crash leave no live database, and no later run puts one back, while the copy lies among the backups |
| `UpgradeSwap.CopyForGood` | strict_common/offline_upgrade.py:413-413 | A complete copy once made survives every later step |
| `UpgradeSwap.LogForGood` | strict_common/offline_upgrade.py:371-374 | A write-ahead log found at the start stays with the live file or lies next to a backup, through every crash and failure |
| `UpgradeSwap.RerunCompletes` | strict_common/offline_upgrade.py:403-438 | Crashing anywhere and running again to the end leaves a verified rebuild of the source on the live path |
| `LocalUpgrade.UpgradeIsV10` | strict_common/offline_upgrade.py:416-424 | Every verified rebuild of a source, whatever ids and times it got, has the same business rows, generation and single active identity |
| `LocalUpgrade.RerunGivesTheSameRows` | strict_common/offline_upgrade.py:392-438 | Crash and rerun of the whole upgrade ends on those rows |
| `LocalUpgrade.SmallUpgradeRuns` | strict_common/offline_upgrade.py:392-438 | An outdated database that can be rebuilt, with its log to spare, and its rebuild: what the theorems about upgrades ask for exists |
| `LocalUpgrade.LogMovedAwayIsMissed` | strict_common/offline_upgrade.py:370-378 | A live file that holds one plan and a log that holds another: a crash three statements into its upgrade leaves neither the source nor a rebuild of it |
| `LocalUpgrade.CallIsSafe` | strict_common/offline_upgrade.py:412-435 | A call no crash ends upgrades exactly when the source can be rebuilt and the swap verifies, and otherwise leaves all of the source, logged changes included, on the live path |
| `LocalUpgrade.CallLeavesOthersAlone` | strict_common/offline_upgrade.py:397-412 | Every other call: no live file, a current one, or one that is neither current nor a published v8 or v9; each is told so and the disk is unchanged |
| `LocalUpgrade.InspectIff` | strict_common/offline_upgrade.py:72-103 | Exactly the genuine and sound databases of the v8 or v9 shape whose newest active identity says so are upgraded |
| `LocalUpgrade.AttemptIsRun` | strict_common/offline_upgrade.py:403-438 | A call no crash ends is one of the runs the safety theorems speak of |
| `LocalUpgrade.Volume.ReplaceDatabase` | strict_common/offline_upgrade.py:370-378 | Sidecars moved next to the backup, then the stage over the live file |
| `LocalUpgrade.Volume.EnsureCurrent` | strict_common/offline_upgrade.py:392-441 | The call, statement by statement, is the protocol run to its end |
| `TaskProjection.ApplyKeepsLinks` | backend/app/gc04_tasks_local.py:173-238 | Every pass keeps every foreign key satisfied |
| `TaskProjection.LaterPassDefersNoMore` | backend/app/gc04_tasks_local.py:214-220 | A later pass over the same snapshot defers no row an earlier one applied, whatever was added in between |
| `TaskProjection.RetriesConverge` | backend/app/gc04_tasks_local.py:224-230 | Re-applying a snapshot reaches a fixed point within (rows + 1) passes |
| `TaskProjection.LimitIsLeast` | backend/app/gc04_tasks_local.py:173-222 | What is applied in the end is the least set of keys closed under the snapshot; a row stays deferred exactly when a parent is missing from it |
| `TaskProjection.OrderDoesNotMatter` | backend/app/gc04_tasks_local.py:224-229 | The order of the rows does not decide which end up deferred |
| `TaskSnapshot.DeferredIsUntouched` | backend/app/gc04_tasks_local.py:185-221 | A row no applied row names keeps its confirmed version and its secured resource |
| `TaskSnapshot.UpsertMerges` | backend/app/gc04_tasks_local.py:117-146 | An upsert leaves every column the row carries as sent, every other as it was, and a version of at least one |
| `TaskSnapshot.LastAppliedWins` | backend/app/gc04_tasks_local.py:185-222 | Of the rows with one id the last applied one is what the cache holds, with its secured resource |
| `TaskSnapshot.LastResourceWins` | backend/app/gc04_tasks_local.py:192-212 | The secured resource of a list, task or view has the kind, scope and version of the last applied row with its id |
| `TaskSnapshot.AcceptedIff` | backend/app/gc04_tasks_local.py:129-133 | A pass is accepted if and only if every row, when its turn comes, has an id that is not blank and fits the constraints |
| `TaskSnapshot.DeferredIff` | backend/app/gc04_tasks_local.py:213-221 | A row is deferred if and only if one of its references names a key that is neither there by then nor its own |
| `TaskSnapshot.AppliedPlusDeferred` | backend/app/gc04_tasks_local.py:219-222 | Applied and deferred counts of a table are its incoming rows |
| `TaskSnapshot.SkippedAre` | backend/app/gc04_tasks_local.py:219-220 | The skipped ids of a table are exactly those of its deferred rows |
| `TaskSnapshot.CountedAre` | backend/app/gc04_tasks_local.py:222-222 | The count of a table is the number of its applied rows |
| `TaskSnapshot.NoStaleWithDeferral` | backend/app/gc04_tasks_local.py:230-238 | With any deferral, or without replacement, no row becomes stale |
| `TaskSnapshot.SnapshotAgreementIff` | backend/app/gc04_tasks_local.py:258-289 | After a replacing pass without deferral the current ids of a marked table are exactly the snapshot's if and only if all were sent trimmed |
| `TaskSnapshot.UntrimmedIdGoesStale` | backend/app/gc04_tasks_local.py:258-289 | A complete one-row snapshot with an untrimmed id is applied and marked stale in the same pass |
| `TaskSnapshot.ClosingChangesExactly` | backend/app/gc04_tasks_local.py:268-300 | What the closing updates change: exactly the current rows of this scope and sandbox and the live task entries of this scope that the snapshot does not list, each only in its mark; every other row, of other scopes and sandboxes too, is the same |
| `TaskSnapshot.AbsentEntriesInvalidated` | backend/app/gc04_tasks_local.py:290-300 | Calendar entries of tasks that the snapshot lacks are no longer live |
| `LocalTaskProjection.TaskCache.ApplyOne` | backend/app/gc04_tasks_local.py:173-222 | One row in its savepoint, resource and row rolled back together |
| `LocalTaskProjection.TaskCache.ApplySnapshot` | backend/app/gc04_tasks_local.py:148-256 | The six row loops, counts, skipped ids, closing updates and rollback are the specified pass and report |
| `LocalTaskProjection.OnePassIsEnough` | backend/app/gc04_tasks_local.py:224-229 | A snapshot whose rows refer only to what is there, themselves and rows of earlier tables is applied in one pass |
| `LocalTaskProjection.TaskCache.MarkAbsentStale` | backend/app/gc04_tasks_local.py:268-300 | The five closing updates |
| `MinutesGuarantees.RunIsSound` | backend/app/gc08_meetings.py:668-783 | Over all sequential runs: transcriptions 1..n, each superseding the previous, the recording at n; minutes 1..m with current version m and the document in its state; attempts numbered; every minutes version anchored to one transcription |
| `MinutesGuarantees.FailuresKeepChains` | backend/app/gc08_meetings.py:645-660 | Failed, blocked, refused and crashed calls leave both chains and all evidence unchanged |
| `MinutesGuarantees.TranscriptionAlwaysStores` | backend/app/gc08_meetings.py:671-684 | The next transcription's keys are always free |
| `MinutesCalls.TranscribeAnswer` | backend/app/gc08_meetings.py:596-660 | A transcription call does nothing exactly when it is not forced and the latest attempt is ready, blocked or failed; otherwise it opens one attempt and ends by what was heard |
| `MinutesCalls.TranscribeReadyIff` | backend/app/gc08_meetings.py:621-789 | A transcription is stored if and only if the call is forced or nothing has ended and a text that is not blank was heard, and then as the next version |
| `MinutesCalls.UnforcedTranscribesOnce` | backend/app/gc08_meetings.py:605-614 | After a call that ended, no run of unforced calls changes the transcriptions, and each further unforced one does nothing |
| `MinutesGuarantees.DraftReadyIff` | backend/app/gc08_meetings.py:861-964 | A draft is stored if and only if it is allowed, its transcript reads back, there is a text, and its citations are usable and distinct |
| `MinutesCalls.DraftAnswer` | backend/app/gc08_meetings.py:861-960 | A draft call does nothing exactly when it is not forced and the latest one is ready; otherwise one attempt, blocked without a transcript, and ended by what the writer does |
| `MinutesCalls.DraftStoredIff` | backend/app/gc08_meetings.py:861-964 | A draft is stored if and only if that does not stop it, there is a text, and its citations are distinct, located and of the four kinds |
| `MinutesCalls.StoredDraftSays` | backend/app/gc08_meetings.py:962-1099 | It stores the caller's text if that is not blank, else the writer's, as the next version |
| `MinutesCalls.StoredDraftCites` | backend/app/gc08_meetings.py:966-1128 | And one row of evidence per citation, in order, on the current transcription: the caller's citations, else the writer's, else the whole transcript |
| `MinutesCalls.UnstoredDraftLeaves` | backend/app/gc08_meetings.py:1131-1134 | A draft that is not stored leaves the books alone and at most takes away the file it would have had |
| `MinutesGuarantees.PayloadIsAnchored` | backend/app/gc08_meetings.py:1210-1298 | A payload carries evidence, all of it on the current transcription, and a body with the current version's hash |
| `MinutesCalls.TranscriptReadsIff` | backend/app/gc08_meetings.py:884-903 | The transcript is the last version's file if that reads back with its hash, and otherwise none |
| `MinutesCalls.PayloadAnswer` | backend/app/gc08_meetings.py:1210-1298 | Which refusal, and when there is a payload, in every sound state; it carries text, hash and all evidence of the current version |
| `MinutesGuarantees.RetranscriptionWithdrawsMinutes` | backend/app/gc08_meetings.py:1253-1271 | After a new transcription no earlier minutes can be published, through any calls and file changes, until minutes are drafted again |
| `MinutesGuarantees.FreshDraftPublishableIff` | backend/app/gc08_meetings.py:1186-1195 | A draft just stored can be published if and only if its text has no carriage return |
| `MinutesGuarantees.FreshTranscriptUsableIff` | backend/app/gc08_meetings.py:889-903 | A transcription just stored can be drafted from if and only if it has no carriage return |
| `MinutesGuarantees.ReturnMakesTranscriptUnusable` | backend/app/gc08_meetings.py:889-903 | The transcription "a\rb" of a fresh recording is stored and does not read back |
| `MinutesGuarantees.ReturnMakesDraftUnpublishable` | backend/app/gc08_meetings.py:1186-1195 | The minutes "a\rb" are stored as ready and cannot be published |
| `MinutesGuarantees.PublishingTwiceIsOnce` | backend/app/gc08_meetings.py:1319-1334 | Recording the same cloud version again is a no-op, however much happened since |
| `MinutesCalls.PublicationAnswer` | backend/app/gc08_meetings.py:1319-1388 | Known, nothing to mark, or recorded as one more version with the current content |
| `MinutesGuarantees.SentIsRecordedIff` | backend/app/gc08_meetings.py:1335-1388 | After any calls, recording a publication marks the content that was sent if and only if the current version still has its hash, that is, if and only if no draft was stored since or the last one has the text sent |
| `MinutesGuarantees.CurrentIsLastDrafted` | backend/app/gc08_meetings.py:1054-1099 | Over any run the current content is that of the last draft stored, or what it was |
| `MinutesGuarantees.LaterDraftIsMarkedPublished` | backend/app/gc08_meetings.py:1335-1355 | A different draft stored between sending and recording, among any other calls, is what gets marked as published |
| `MinutesGuarantees.SentIsNotRecorded` | backend/app/gc08_meetings.py:1335-1355 | A run from a fresh recording: minutes "a" are sent, minutes "b" are drafted, and the recording of the publication marks "b" |
| `MeetingRepository.LocalMeetingRepository.TranscribeRecording` | backend/app/gc08_meetings.py:573-789 | Attempt, recogniser and closing transaction leave the specified rows and outcome |
| `MeetingRepository.LocalMeetingRepository.CreateMinutesDraft` | backend/app/gc08_meetings.py:835-1140 | Attempt, transcript check, text, citations and closing transaction leave the specified rows and outcome |
| `MeetingRepository.LocalMeetingRepository.RecordCloudPublication` | backend/app/gc08_meetings.py:1300-1388 | The published version row and the document |
| `MeetingRepository.LocalMeetingRepository.CloudPublicationPayload` | backend/app/gc08_meetings.py:1210-1298 | The evidence loop yields the specified payload or the specified refusal |
| `MeetingRepository.NormalizeCitations` | backend/app/gc08_meetings.py:791-833 | The citation loop accepts and normalises exactly the usable citations, or the default one |
| `MeetingRepository.InsertEvidence` | backend/app/gc08_meetings.py:1101-1128 | The evidence inserts succeed if and only if the citations are distinct and none of their keys is taken |
| `InstallerDownload.TargetReplacedOnlyByGenuine` | src/main/officialUpdater.ts:516-546 | Whatever the server answers, one attempt replaces the target only by bytes of the manifest's size and digest; a crash between removal and rename leaves them in the temporary file |
| `InstallerDownload.TargetStaysGenuine` | src/main/officialUpdater.ts:399-579 | Over any run of attempts and crashes the target is what it was, missing, or genuine |
| `InstallerDownload.TemporaryStaysPrefix` | src/main/officialUpdater.ts:438-514 | Over any run of honest 200, 206 and 416 answers (sections 13.1.5 and 14.2 of RFC 9110), early ends and failures, the temporary file is a prefix of the artifact |
| `InstallerDownload.ReadyIffComplete` | src/main/officialUpdater.ts:479-546 | An attempt is ready exactly when what it received, resumed part included, is as long as the artifact, and then the target is the artifact |
| `InstallerDownload.AttemptByAnswer` | src/main/officialUpdater.ts:414-546 | Answer by answer: a range that starts where the file ends is appended, a refused or different one is asked for again whole, a whole body starts afresh, anything else leaves what there was; and how what was written is judged |
| `InstallerDownload.CrashLeaves` | src/main/officialUpdater.ts:479-546 | Where a crash before or after writing, or with the target taken away, leaves the files |
| `InstallerDownload.MixtureHeals` | src/main/officialUpdater.ts:520-524 | A mixture of two artifacts that fails its digest is removed, and the next attempt starts from nothing |
| `InstallerDownload.Downloader.DownloadOnce` | src/main/officialUpdater.ts:414-546 | The branches on status, range start and size, and the chunk loop, end in the specified files and outcome |
| `WindowLayout.FitDominates` | src/main/mainWindowLayout.ts:35-46 | Every exact 16:10 rectangle that fits in the area fits in the fitted one |
| `WindowLayout.NormalizedIsVisible` | src/main/mainWindowLayout.ts:76-119 | The window lies in the work area, is no smaller than the resolved minimum, satisfies abs(5w - 8h) <= 7, and only expands unless capped |
| `WindowLayout.NormalizesIff` | src/main/mainWindowLayout.ts:21-33 | A window results exactly from positive dimensions, and is at least 1440 by 900 where the area is |
| `WindowLayout.WholeRounds` | src/main/mainWindowLayout.ts:21-33 | Coordinates and dimensions are rounded to the nearest whole number, halves up |
| `WindowLayout.ResizedIsLeast` | src/main/mainWindowLayout.ts:76-106 | Every exact 16:10 size of the area that covers request and minimum covers the window |
| `WindowLayout.NormalizedIsNearest` | src/main/mainWindowLayout.ts:108-118 | Of all positions in the area the window gets one nearest to the old centre, on both axes |
| `WindowLayout.CentreKept` | src/main/mainWindowLayout.ts:108-118 | Where nothing clamps it, the window keeps its centre to half a pixel |
| `WindowLayout.StopsIff` | src/main/mainWindowLayout.ts:95-106 | A pass changes nothing if and only if the size is exactly 16:10 or the largest the area allows |
| `WindowLayout.NormalisationConverges` | src/main/mainWindowLayout.ts:76-106 | Repeated normalisation stays within the 8k by 5k box around the first result after every pass, and after more than 13k passes it stands at such a size for good |
| `WindowLayout.OnePassIsNotEnough` | src/main/mainWindowLayout.ts:97-101 | One pass is not idempotent: 1441 by 900 moves twice |
| `WindowLayout.FlatIff` | src/main/mainWindowLayout.ts:42-45 | A height of zero comes out only of an area one pixel wide |
| `TranscriptChunks.ChunksRoundTrip` | backend/app/transcript_semantic_correction.py:106-123 | Joining the chunks gives back the joined lines; each chunk is within the target or is a single line |
| `TranscriptChunks.ClosedWhenNearlyFull` | backend/app/transcript_semantic_correction.py:113-120 | The size counter overestimates by one at most: a chunk is closed only within one of overflowing |
| `TranscriptChunks.LinesHoldText` | backend/app/transcript_semantic_correction.py:107-107 | Splitting into lines loses nothing but the breaks |
| `TranscriptChunks.AcceptsIff` | backend/app/transcript_semantic_correction.py:133-154 | A revision is accepted if and only if it has as many lines, a length between 0.86 and 1.14 of the original's, enough likeness, and the same speaker on every line |
| `TranscriptChunks.RevisedEach` | backend/app/transcript_semantic_correction.py:188-219 | Each chunk is revised by its own answer |
| `TranscriptChunks.SafeRevisionKeepsSpeakers` | backend/app/transcript_semantic_correction.py:133-154 | For every candidate the revision has the chunk's sequence of speaker prefixes |
| `TranscriptChunks.CorrectionKeepsSpeakers` | backend/app/transcript_semantic_correction.py:182-222 | For every possible model output, failures included, the corrected transcript has the original's sequence of speaker prefixes |
| `TranscriptChunks.LinesApart` | backend/app/transcript_semantic_correction.py:220-220 | Joining two texts with a line feed keeps the lines of both and adds a blank one if and only if the first does not end inside a line |
| `TranscriptChunks.RevisionCount` | backend/app/transcript_semantic_correction.py:133-154 | A revision alone has the lines of its chunk; before other text it has one less if and only if it is accepted for a chunk that ends in a blank line |
| `TranscriptChunks.CorrectedCount` | backend/app/transcript_semantic_correction.py:182-222 | The exact number of lines of an answered transcript: one less for each chunk before the last that loses its blank line and one for a final blank line |
| `TranscriptChunks.LinesKeptIff` | backend/app/transcript_semantic_correction.py:182-222 | For every transcript and every model output: the number of lines is kept if and only if an answer is missing, or the transcript ends in no blank line and no chunk before the last both ends in one and takes its revision |
| `TranscriptChunks.FinalBlankLineIsLost` | backend/app/transcript_semantic_correction.py:107-123 | A transcript of one line and a blank one loses the blank one whatever is answered, a refused answer included |
| `TranscriptChunks.TrailingBlankLineIsLost` | backend/app/transcript_semantic_correction.py:134-137 | A transcript of three lines, the middle one blank, split after it: the first answer lacks the blank line, is accepted, and two lines are left |
| `TranscriptChunks.MakeChunks` | backend/app/transcript_semantic_correction.py:106-123 | The chunk loop |
| `TranscriptChunks.CorrectTranscript` | backend/app/transcript_semantic_correction.py:182-222 | The correction loop, with the original back on any failure |

## Left out

- The ledger's context resolution: sandbox and membership lookup and the errors of a stale sandbox; `get` and `latest`, which only read.
- Receipt states that are not text, and receipts whose stored JSON no longer parses.
- Calls without `capture_sandbox_context`, which go straight to the cloud or the generator.
- Overlapping calls under one idempotency key: the last freeze wins there, and nothing is claimed.
- The dispatcher's number of worker threads, which only orders when jobs finish; the deadline itself; cancellation of an awaiting caller, which touches no shared state.
- SQLite: SQL text, pragmas, file locks, fsync, and the checkpoint that closing a last connection performs; half-written stage and backup files, which nothing reads again.
- The verdicts of `quick_check`, `foreign_key_check`, the identity hashes and `verify_database`: arbitrary predicates on contents. Schemas are whatever satisfies what the three published ones have in common (`RebuildAgreement.Published`); the final checks of the two migrators are not modelled.
- Column values other than text and NULL, in the rebuild; column defaults other than NULL.
- RebuildAgreement.DirectEqualsStepwise: asks that no link has a NULL end; the exact condition is in `RebuildAgreement.DirectEqualsStepwiseIff`.
- UpgradeSwap.SwapSafety: asks, as the two theorems about reruns and restores do, that the live file is complete without its log; `UpgradeSwap.SwapSafetyIff` shows that this is exactly what is needed.
- LocalUpgrade.RerunGivesTheSameRows: asks that the source can be rebuilt under the ids of the last attempt, since the verdicts are arbitrary predicates that might look at ids.
- BoundedDispatch.PermitConservation: asks that no `start` falls between the halves of a `close`; `BoundedDispatch.RestartConservesIff` shows that this is exactly what is needed.
- The projection's unique, check and not-null constraints: one arbitrary predicate whose refusal rolls the pass back. Composite foreign keys, of which these tables have none; version monotonicity, which the cache does not have; the reading helpers at the end of the file.
- The rows of other recordings, meetings and scopes, which every query of the meeting repository excludes by id; titles, languages, durations, action candidates and timestamps; registering and capturing a recording; the recording's own state column.
- ASR, the minutes model, parsing its JSON, and the transcript corrector's model: arbitrary results or failures. Fence stripping, the similarity ratio and the speaker pattern of the corrector: arbitrary functions, the first leaving no line break at the end where lines are counted, the last with no match on a blank line.
- The updater's persisted status, progress broadcasts, the single-flight wrapper, the early return for an installer already downloaded, and entity tags: with one artifact they only choose among the answers an honest server may give.
- Floating-point rounding in the window arithmetic, and values that are not finite.
- Web crawling, HTTP routing, DTO mapping, Electron wiring, registry and audit scripts: I/O or long field copies with nothing to prove across steps.
