# Agent platform protocols in Dafny

This project models the SQLite-backed protocols of the agent platform and proves what they keep over every run. A table is
a map or a sequence, a write transaction is one step, and a read that happens before its transaction opens is a step of
its own. Each class method is proved against a function on those values; the theorems are about the functions, over every
list of steps.

| area | modules |
|---|---|
| Offline device synchronisation: cloud log and its writers, device outbox, lossy requests, crashes, overlapping calls | `CloudEvents`, `BatchAnswers`, `BatchAborts`, `CloudLog`, `CloudWriters`, `DurableQueue`, `OutboxRows`, `DeviceSync`, `SyncGuarantees`, `SyncWriters`, `SyncRounds`, `RoundOutcomes`, `OverlappingCalls`, `OverlappingRounds`, `BlockedOutbox`, `ProjectionRules`, `CloudStore`, `LocalRuntime` |
| Device jobs: approval, 90-second leases, results, recovery | `DeviceJobs`, `JobMoves`, `JobAnswers`, `JobRuns`, `JobResults`, `JobRounds`, `StrandedJobs`, `FinishableJobs` (and `CloudStore`) |
| Agent runs: claims, retries, recovery, the worker | `RunRows`, `RunLeases`, `RunDriver`, `RunWorkers`, `RunStore`, `RunWorker` |
| Resumable event streams: dense log, one-slot wake-ups, cursor readers | `RunEvents`, `EventStream`, `StreamSession`, `Broker` |
| The file map: connected components and layout | `FileComponents`, `FileLayout` |
| Re-indexing a repository under foreign keys | `Reindex`, `ReindexGuarantees`, `ReindexMap` |
| One-time desktop sign-in | `DesktopAuth`, `DesktopClaims` |
| Time stamps and text order | `Timestamps`, `TextOrder` |

Every run is a list of labels. A label that is not enabled changes nothing, so a theorem over all lists of labels covers
all interleavings, losses, repetitions and crashes (a crash is a step that never comes).

## Where the code does not do what is promised

Each promise that fails is stated with its exact condition and with a concrete run or input.

* `_record_cloud_event_sync` reads the revision with a SELECT that runs before Python's sqlite3 opens the transaction (it
  opens one at the first INSERT). `CloudWriters.LedgerHoldsExactly`: the revision ledger holds if and only if no cloud event
  committed after its entity had gained a row since the writer's SELECT, and `SyncWriters.LedgerUnderSync` says so for the
  whole system of devices and writers. `CloudLog.LedgerBreaksUnderRace` is a run that
  breaks it. Device batches are safe: their transaction opens with an UPDATE.
* `_release_for_retry_sync` and `_recover_runs_sync` read before they write in the same way. `RunRows.RetryBoundExactly`
  gives the exact condition of the retry bound, `RunRows.RetryBoundBreaksUnderRace` a run with a fourth claim under a limit
  of three. `src/queueing/worker.py:16-21` promises recovery "without executing a run twice".
* Neither a release nor a completion looks at the status. `RunWorkers.SettledForeverExactly`: with any number of workers
  settled runs stay settled if and only if no requeue lands on one. `RunWorkers.DescentExactly`: every write brings a run
  nearer its end if and only if none changes a settled run or requeues one whose attempts are used up.
  `RunWorkers.SettledRunRevives` is a reachable run that does, although it reads the present row.
* The pull returns at most 500 events beside the highest sequence of the project, so a device more than 500 events behind
  never receives the rest, although `local-runtime/README.md:5` and `:56` promise all of them.
  `SyncGuarantees.ReplicaExactly` gives the exact condition, `SyncRounds.BacklogOf501Skips` a run that skips event 501.
* The device's cursor can move back when two processes synchronise one outbox. `OverlappingRounds.CursorClimbsExactly`: it
  never does if and only if no answer is adopted after one that was pulled later, with a row of the project appended
  between the two pulls; `OverlappingRounds.CrossedAnswersMoveBack` is such a run, and calls that do not overlap never do
  it (`OverlappingRounds.SequentialCallsClimb`). The replica stays complete up to the cursor if and only if no adopted
  answer was cut at 500 events while a row that was cut off is missing (`OverlappingRounds.OverlapsCompleteExactly`).
* A violated key inside a projection is not among the exceptions that the sync loop turns into conflicts. It rolls the
  whole event transaction back, while the job results of the same call stay committed.
  `BatchAborts.BatchAbortsExactly`: a batch aborts if and only if one of its mutations is new, up to date and meets a taken
  key. `BatchAborts.ForeignNoteAborts` is a reachable one: a note id that another project has. The device then sends the
  mutation again in every call: `BlockedOutbox.BlockedForever` shows that nothing it queued is acknowledged and nothing
  is received while the key is taken and the revision agrees; `BlockedOutbox.BlockedRun` is a reachable device like that.
* A job whose device holds a result under a lease that has ended, or one that is too large, can never complete.
  `FinishableJobs.FinishesExactly`: through transactions stamped at a time or later, a job can finish if and only if it is
  live at that time and its device holds no result for it, or an acceptable one under a lease live at that time.
  `StrandedJobs.StrandedRun` strands a job in five steps from the start.
* Dependencies of an orphaned module are not updated. `ReindexGuarantees.DependenciesResolveExactly`: after an index every
  dependency names another active module if and only if the modules it orphans depend on scopes that are still tracked.
  `ReindexGuarantees.OrphanDangles` is a database and a tree for which one does not.

A conflict, by contrast, is not meant to be final: the same mutation may be stored later
(`CloudLog.ConflictMaySucceedLater`).

## Model

| member | source | states |
|---|---|---|
| `CloudEvents.ConflictsLeaveNoTrace` | src/workspace/store.py:1322-1346 | dropping the conflicting and projection-rejected mutations from a batch changes neither log, revisions, tables nor the acknowledgements |
| `CloudEvents.RepeatsLeaveNoTrace` | src/workspace/store.py:1322-1346 | the mutations that enter the log reach the same workspace on their own, and all are acknowledged |
| `CloudEvents.BatchExtendsLog` | src/workspace/store.py:1322-1346 | a batch only appends rows of its project and device, and the ids logged in addition are exactly the acknowledged ones |
| `CloudEvents.RetryChangesNothing` | src/workspace/store.py:1323-1326 | resubmitting logged ids in any order and with repeats acknowledges all and changes nothing |
| `CloudEvents.BatchIsRedoLog` | src/workspace/store.py:1322-1346 | the appended rows are the stored mutations in order, and replaying the projection of exactly those yields the new tables |
| `BatchAnswers.ProjectedExactly` | src/workspace/store.py:1264-1308 | an event is applied if and only if its payload is valid, what it refers to belongs to the project and no row takes its key; it is refused if and only if one of the first two fails |
| `BatchAnswers.BatchAnswered` | src/workspace/store.py:1322-1346 | each mutation of a batch by the workspace the earlier ones left: a new, up-to-date, admissible one with a free key becomes one log row, one revision and the rows it describes; a known one is acknowledged; any other is refused with its code and the stored revision and leaves nothing |
| `BatchAnswers.ServedExactly` | src/workspace/store.py:1310-1353 | a request is served if and only if its device is registered in the project and not revoked and no mutation meets a taken key; the reply carries the batch's answers, and the device's row alone is brought up to date |
| `BatchAnswers.RevokedIsShutOut` | src/workspace/store.py:1316-1317 | over every run: while a device is revoked or not registered, nothing it ever sent enters the log and none of its requests is answered |
| `BatchAborts.BatchAbortsExactly` | src/workspace/store.py:1322-1346 | a batch aborts if and only if one of its mutations clashes with the workspace the earlier ones left |
| `BatchAborts.ForeignNoteAborts` | src/workspace/store.py:1266-1273 | a reachable batch that aborts on a note id of another project and loses the good mutation before it |
| `BlockedOutbox.BlockedBatchAborts` | src/workspace/store.py:1322-1346 | a batch that carries a new, up-to-date mutation whose key is taken, behind mutations of other entities, aborts whatever else it carries and whatever ids are drawn |
| `BlockedOutbox.BlockedForever` | local-runtime/agent_room_runtime/runtime.py:121-148 | over every continuation in which such a mutation stays so and the device queues behind it: none of its requests is answered, nothing queued is acknowledged, nothing is received, and the next call aborts again |
| `BlockedOutbox.BlockedRun` | local-runtime/agent_room_runtime/outbox.py:61-66 | a reachable blocked device whose older, good mutation is held back too |
| `CloudLog.RunKeepsLog` | src/workspace/store.py:1322-1381 | over any interleaving of device batches and cloud events the log only grows, stays dense and holds no event id twice |
| `CloudLog.AcknowledgedForever` | src/workspace/store.py:1323-1326 | after any later steps, resubmitting acknowledged mutations from any device of the project acknowledges all and changes nothing |
| `CloudLog.ConflictMaySucceedLater` | src/workspace/store.py:1329-1331 | a mutation refused for its revision is stored when the revision has caught up |
| `CloudLog.LedgerExactly` | src/workspace/store.py:1327-1381 | for writes with any revision read: stored revision = number of logged events, numbered 1..n with base one below, holds at the end of a run if and only if every committed cloud event carried the stored revision |
| `CloudLog.LedgerBreaksUnderRace` | src/workspace/store.py:1359-1368 | two cloud writers that read the same revision break the ledger |
| `CloudWriters.LedgerHoldsExactly` | src/workspace/store.py:1359-1381 | with the SELECT and the write of every cloud writer as steps of their own: the ledger holds at the end of a run if and only if no event committed after its entity gained a row since the writer's SELECT |
| `CloudLog.LogDeterminesTables` | src/workspace/store.py:1264-1381 | over every run the log is its journal, one row per entry; doing every entry once in that order yields the tables, where a pushed row is projected, a recorded cloud event stores its episode if it has one, and a write from elsewhere replaces the tables |
| `DeviceSync.CloudRunsTheStore` | src/workspace/store.py:1310-1353 | the cloud half of every run of the whole system is a run of the event store, so all its theorems apply |
| `DeviceSync.RowsAfterIsWindow` | src/workspace/store.py:1347-1349 | the pull returns the project's rows between the device's cursor and the cursor sent beside it, cut at 500 |
| `DeviceSync.WindowMeaning` | src/workspace/store.py:1347-1349 | a window holds exactly the rows of the project in range, in increasing sequence |
| `DeviceSync.RunKeeps` | local-runtime/agent_room_runtime/runtime.py:121-148 | whole-system invariant: acknowledged ids are logged, replies in flight stay true, received rows come from the log |
| `SyncGuarantees.ExactlyOnce` | src/workspace/store.py:1322-1346 | with lost, repeated and re-served requests, aborts and device crashes: each event id is logged at most once, every locally acknowledged id is logged, each logged row was projected once |
| `SyncWriters.WritersJoinTheSystem` | src/workspace/store.py:1356-1381 | with the SELECT of every cloud writer as a step of its own, devices, network and cloud still make a run of the whole system |
| `SyncWriters.LedgerUnderSync` | src/workspace/store.py:1327-1381 | through devices, network and cloud writers in two steps each: the ledger holds at the end of a run if and only if no event committed after its entity gained a row since the writer's SELECT |
| `SyncGuarantees.AcknowledgedIsLoggedVerbatim` | local-runtime/agent_room_runtime/outbox.py:53-74 | with fresh event ids, an acknowledged event is in the log exactly as it was queued |
| `SyncGuarantees.ApplyCompletes` | local-runtime/agent_room_runtime/outbox.py:103-113 | applying a reply leaves a complete replica if and only if it was complete and the backlog fits one page |
| `SyncGuarantees.ReplicaExactly` | src/workspace/store.py:1347-1349 | what a device received is always part of its project's log up to its cursor, and all of it if and only if no reply it applied was truncated |
| `SyncGuarantees.DeviceNeverForgets` | local-runtime/agent_room_runtime/outbox.py:53-113 | cursors never move back; nothing queued, received or acknowledged is lost, across crashes and replays |
| `SyncRounds.RoundIsRun` | local-runtime/agent_room_runtime/runtime.py:121-148 | one synchronisation call, up to any crash point, is a run of the system with exactly this outcome |
| `RoundOutcomes.AcceptedExactlyLogged` | src/workspace/store.py:1322-1346 | a pushed mutation is acknowledged if and only if the log holds its event afterwards |
| `RoundOutcomes.RoundSettles` | local-runtime/agent_room_runtime/runtime.py:121-148 | after an answered call, up to any crash point: of the queued events exactly those it sent and the cloud now holds are newly acknowledged; delivered events are received and the cursor is the server's exactly when the call finished |
| `RoundOutcomes.QueueKeepsFirst` | local-runtime/agent_room_runtime/outbox.py:53-59 | over every run the queue holds under each event id exactly the first mutation queued under it |
| `SyncRounds.OneRound` | src/workspace/store.py:1347-1349 | after n cloud events and one clean round a fresh device holds events 1..min(n, 500) and cursor n |
| `SyncRounds.BacklogOf501Skips` | local-runtime/README.md:5 | a reachable run in which the cursor passes event 501 without delivering it |
| `OverlappingCalls.ExactlyOnceAnyway` | local-runtime/agent_room_runtime/cli.py:33-69 | with any number of calls at once on every outbox: each event id is logged at most once, every locally acknowledged id is logged, every received row is the log's, each logged row was projected once |
| `OverlappingCalls.OverlapsForgetNothing` | local-runtime/agent_room_runtime/outbox.py:53-113 | however calls overlap, nothing queued, received or acknowledged is lost |
| `OverlappingRounds.CursorClimbsExactly` | local-runtime/agent_room_runtime/outbox.py:103-113 | with overlapping calls on one outbox the cursor never decreases if and only if no answer is adopted after one pulled later, with a row of the project appended between the two pulls |
| `OverlappingRounds.SequentialCallsClimb` | local-runtime/agent_room_runtime/runtime.py:121-148 | calls that begin after every earlier adoption never move the cursor back |
| `OverlappingRounds.OverlapsCompleteExactly` | local-runtime/agent_room_runtime/outbox.py:103-113 | however calls overlap, everything up to the cursor is received at every moment if and only if no answer cut at 500 is adopted while a row that was cut off is missing |
| `OverlappingRounds.CrossedAnswersMoveBack` | local-runtime/agent_room_runtime/cli.py:33-69 | two crossed answers move the cursor from 2 back to 1 |
| `ProjectionRules.ProjectionRespects` | src/workspace/store.py:1264-1308 | a projection stays inside its project, overwrites no row and keeps rows in their project |
| `ProjectionRules.BatchStaysInProject` | src/workspace/store.py:1310-1353 | a device's batch changes no other project's rows, revisions or events |
| `DurableQueue.PendingIsUnique` | local-runtime/agent_room_runtime/outbox.py:61-66 | the pending query has exactly one answer |
| `OutboxRows.InsertMeaning` | local-runtime/agent_room_runtime/outbox.py:103-109 | received rows are inserted once per sequence, the first one winning |
| `CloudStore.WorkspaceStore.ApplyRemoteProjection` | src/workspace/store.py:1264-1308 | the imperative projection computes the projection function, with rejection and key violation told apart |
| `CloudStore.WorkspaceStore.PushOne` | src/workspace/store.py:1322-1346 | one pass of the sync loop computes one step of the batch fold |
| `CloudStore.WorkspaceStore.PushAll` | src/workspace/store.py:1322-1346 | the sync loop computes the batch fold, or leaves with the exception exactly when the fold fails |
| `CloudStore.WorkspaceStore.SyncEvents` | src/workspace/store.py:1310-1353 | the event transaction computes the sync function; refusals and aborts leave the database unchanged |
| `CloudStore.WorkspaceStore.WriteCloudEvent` | src/workspace/store.py:1364-1380 | the write block of a cloud event with a revision read earlier |
| `CloudStore.WorkspaceStore.RecordCloudEvent` | src/workspace/store.py:1356-1381 | read and write together, with nothing between them, number the entity's next row, keep the ledger, and raise exactly for an invalid episode or a used id |
| `CloudStore.WorkspaceStore.ExpireAndRecoverDeviceJobs` | src/workspace/store.py:1001-1009 | both UPDATEs together are the sweep function |
| `CloudStore.WorkspaceStore.CreateDeviceJob` | src/workspace/store.py:1011-1031 | creation sweeps and inserts for a registered device and a known workspace, or raises and changes nothing |
| `CloudStore.WorkspaceStore.ApproveDeviceJob` | src/workspace/store.py:1037-1049 | approval sweeps and moves only a pending job of the project |
| `CloudStore.WorkspaceStore.SelectClaimable` | src/workspace/store.py:1075-1078 | the selection is the oldest claimable jobs, at most the limit, none missed |
| `CloudStore.WorkspaceStore.LeaseSelected` | src/workspace/store.py:1079-1089 | every selected row is leased with its own draw and delivered with the lease it then holds |
| `CloudStore.WorkspaceStore.ClaimDeviceJobs` | src/workspace/store.py:1069-1090 | a claim leases exactly the selected jobs and delivers each with the lease it now holds |
| `CloudStore.WorkspaceStore.CompleteDeviceJobResults` | src/workspace/store.py:1096-1119 | result submission computes the fold of examinations, with every answer |
| `LocalRuntime.LocalOutbox.EnqueueEvent` | local-runtime/agent_room_runtime/outbox.py:53-59 | queueing an id twice keeps the first row |
| `LocalRuntime.LocalOutbox.PendingEvents` | local-runtime/agent_room_runtime/outbox.py:61-66 | the first unacknowledged rows in queue order, at most the limit |
| `LocalRuntime.LocalOutbox.AcknowledgeEvents` | local-runtime/agent_room_runtime/outbox.py:68-74 | marks the listed rows and nothing else |
| `LocalRuntime.LocalOutbox.EnqueueJobResult` | local-runtime/agent_room_runtime/outbox.py:76-81 | keeps the first result stored for a job |
| `LocalRuntime.LocalOutbox.ApplyServerEvents` | local-runtime/agent_room_runtime/outbox.py:103-113 | inserts unseen sequences and moves the cursor, in one transaction |
| `LocalRuntime.LocalRuntime.HandleAnswer` | local-runtime/agent_room_runtime/runtime.py:139-161 | the device state after an answer, for every crash point between its local transactions |
| `LocalRuntime.LocalRuntime.SyncOnce` | local-runtime/agent_room_runtime/runtime.py:121-162 | one call changes cloud and device exactly as the sync, job and outbox functions say, for every fate of the request; it claims the oldest claimable jobs, with the leases drawn for them |
| `DeviceJobs.SweepLeavesNothingOverdue` | src/workspace/store.py:1001-1009 | after recovery at t no lease and no live job is overdue at t; only overdue leases went back to the queue |
| `DeviceJobs.LeaseAllKeeps` | src/workspace/store.py:1079-1089 | leasing keeps the row invariant and moves rows only along the status graph |
| `DeviceJobs.SubmitAllKeeps` | src/workspace/store.py:1102-1118 | submissions only settle leased jobs and leave the others alone |
| `DeviceJobs.BatchAcceptsOnce` | src/workspace/store.py:1102-1118 | in one batch a job is accepted at most once |
| `JobAnswers.ResultsSettle` | src/workspace/store.py:1102-1118 | after a batch a job shows the first submission that fits it (own device, present lease, in time, small enough, an outcome) with its status, text and error, and otherwise the row the batch found |
| `JobAnswers.ResultsAnswered` | src/workspace/store.py:1103-1118 | every submission is accepted, or rejected for the first reason that applies to it in the table the batch found |
| `JobAnswers.EveryResultAnswered` | src/workspace/store.py:1102-1119 | no submission goes unanswered |
| `JobRuns.GrantsFollowClaim` | src/workspace/store.py:1079-1089 | the recorded history does not steer the tables |
| `JobRuns.RecordsFollowSubmissions` | src/workspace/store.py:1102-1118 | the same for accepted results |
| `JobRuns.JobsEvolve` | src/workspace/store.py:1001-1119 | over every run: settled states are absorbing, approval precedes work, a job is leased iff both lease fields are set, lease expiry is within job expiry, rows never change hands |
| `JobMoves.JobsMoveOnlySo` | src/workspace/store.py:1001-1119 | in every run a step does nothing to a row, or one of: expiry, return to the queue, the decision of its project, a lease for its own device, a result that fits; a new row is what its request asked for |
| `JobMoves.JobsMustMove` | src/workspace/store.py:1001-1049 | a transaction that commits expires every job that is over, ends every overdue lease of a live one, and carries out its decision |
| `JobMoves.ClaimsServeOldest` | src/workspace/store.py:1075-1089 | a claim leases its picks oldest first, each under its own draw, and passes over a live queued job of its device only when the limit is reached by jobs created no later |
| `JobMoves.JobsAreAccounted` | src/workspace/store.py:1011-1049 | every job of every run: its row keeps project, device and expiry of the request that created it; it is queued, leased or finished only after an approval that found it pending and that the row names; cancelled only after a refusal; expired only after a transaction that found it over |
| `JobMoves.CancelledExactly` | src/workspace/store.py:1037-1049 | a job is cancelled if and only if a refusal found it pending and live, and then it is never leased and has no result, whatever follows |
| `JobMoves.ExpiredExactly` | src/workspace/store.py:1006-1009 | a job is expired if and only if a transaction stamped at its expiry or later committed while it was not settled |
| `JobRuns.LeasesAreBounded` | src/workspace/store.py:1069-1090 | in whatever order request stamps come, lease windows of a job are disjoint, and a lifetime of E seconds (at least 60, src/workspace/models.py:272) allows at most ceil(E/90) leases, 40 under the one-hour limit |
| `JobRuns.ResultAtMostOnce` | src/workspace/store.py:1096-1119 | a completed or failed job has exactly one accepted result, under the last lease issued and strictly before its expiry; any other job has none |
| `JobRuns.SupersededLeaseRejected` | src/workspace/store.py:1108-1110 | at any position of any batch a result under any other lease is rejected and changes no job |
| `JobResults.StoreKeepsFirst` | local-runtime/agent_room_runtime/outbox.py:76-81 | over every run a device holds the first result it stored for a job |
| `JobResults.RecordedIsFirstStored` | local-runtime/agent_room_runtime/outbox.py:76-96 | the status, result and error a finished job records are those of the first result its device stored for it |
| `StrandedJobs.LateResultStrands` | local-runtime/agent_room_runtime/outbox.py:76-81 | a first result stored under a lease that is overdue at the next sweep strands the job |
| `StrandedJobs.StrandedForever` | local-runtime/agent_room_runtime/outbox.py:76-96 | a stranded job stays unfinished through every continuation |
| `StrandedJobs.UnfitForever` | src/workspace/store.py:1103-1106 | a job whose device holds an unacceptable result stays unfinished through every continuation |
| `StrandedJobs.StrandedRun` | local-runtime/agent_room_runtime/outbox.py:76-81 | five steps from the start strand a job that no continuation finishes |
| `FinishableJobs.FinishesExactly` | src/workspace/store.py:1001-1119 | for every job and every time: it can finish through transactions stamped from then on if and only if it has finished, or is neither cancelled nor expired then and its device holds no result for it, or an acceptable one under a lease live then |
| `JobRounds.CallIsRun` | local-runtime/agent_room_runtime/runtime.py:121-162 | the job half of an answered synchronisation call, up to any crash point, is a run of the job system with exactly this outcome, so the lease and result theorems apply |
| `JobRounds.RefusedCallIsRun` | src/workspace/store.py:1310-1321 | a call whose event transaction fails has submitted its job results all the same |
| `JobRounds.CallKeepsFiled` | local-runtime/agent_room_runtime/runtime.py:149-161 | calls store results only under leases that the cloud issued |
| `JobRounds.DeliveriesReported` | local-runtime/agent_room_runtime/runtime.py:149-161 | a delivered job without a row gets one that reports how its execution ended: completed with its result, or failed with at most 2000 characters of the error; older rows stay |
| `JobRounds.SubmittedAreSettled` | local-runtime/agent_room_runtime/runtime.py:139-147 | after a call has come to its job results none of those it submitted is pending, accepted or rejected, and no other row has changed |
| `RunRows.RetryBoundExactly` | src/storage/run_store.py:182-241 | for any workers and interleavings: queued runs have an attempt left and no run exceeds its limit at every moment, if and only if no requeue was written over used-up attempts |
| `RunRows.AttemptsCountClaims` | src/storage/run_store.py:182-189 | the attempt counter equals the number of successful claims in every run |
| `RunRows.LeasedExactlyWhileRunning` | src/storage/run_store.py:182-263 | under every interleaving a run has a lease exactly while it is running |
| `RunLeases.RowsShowLastWrite` | src/storage/run_store.py:182-263 | any workers, any interleaving: every row shows exactly the last write that changed it, its status, lease, error (first 1000 characters) and time |
| `RunLeases.SweepSpares` | src/storage/run_store.py:223-241 | a sweep of due runs changes no run that is settled, queued or under a lease that ends later |
| `RunRows.AtomicRetriesAreBounded` | src/storage/run_store.py:207-241 | when release and recovery decide and write atomically, no run is claimed more than max(1, max_attempts) times |
| `RunRows.RetryBoundBreaksUnderRace` | src/storage/run_store.py:223-241 | two recoverers with one expired row lead to a fourth claim under a limit of three |
| `RunDriver.NextDescends` | src/queueing/worker.py:45-110 | under one serve loop every step leaves a run's status and attempts alone or strictly lowers 2 * (limit - attempts) + [running] |
| `RunDriver.RunsTerminate` | src/queueing/worker.py:45-110 | from any sound table a run moves at most as often as its measure says, at most 2 * max(1, max_attempts) times, whatever is delivered or crashes |
| `RunDriver.ExecutionsAreBounded` | src/queueing/worker.py:60-110 | from any sound table one serve loop executes a run at most max(1, max_attempts) times, earlier attempts counted, and never queues it again after that |
| `RunWorkers.SettledForeverExactly` | src/storage/run_store.py:207-241 | for any workers: once settled, settled for the rest of the run, if and only if no release or recovery requeues a settled run |
| `RunWorkers.DescentExactly` | src/storage/run_store.py:182-263 | for any workers: the retry bound holds throughout and every write leaves a run alone or strictly lowers its measure, if and only if no requeue is written over used-up attempts and no write changes a settled run |
| `RunWorkers.WorkersTerminate` | src/storage/run_store.py:182-263 | under that condition a run moves at most 2 * max(1, max_attempts) times and never after it settled |
| `RunWorkers.SettledRunRevives` | src/storage/run_store.py:207-218 | a reachable run in which a release that read the present attempts revives a completed run |
| `RunStore.ReportsPartition` | src/storage/run_store.py:229-241 | the queued and exhausted reports of a recovery split its selection |
| `RunStore.RecoveryIsRight` | src/storage/run_store.py:223-241 | by the table alone: a recovery leaves settled runs and runs under a live lease unchanged and unreported, requeues or fails each overdue one it takes and reports it once, and passes a due one over only when the limit is reached by rows updated no later |
| `RunStore.SQLiteRunStore.RecoverRuns` | src/storage/run_store.py:223-241 | the same for the method, on its table before and after and on its two reports |
| `RunStore.RecoveryIsRun` | src/storage/run_store.py:223-241 | a recovery is a run of the single-row recoveries of the interleaving theorems |
| `RunStore.SQLiteRunStore.AppendEvents` | src/storage/run_store.py:153-176 | an append that nothing interleaves with commits and numbers its events on from the run's last |
| `RunStore.SQLiteRunStore.WriteEvents` | src/storage/run_store.py:163-175 | the inserts behind an earlier read commit whole or roll back whole |
| `RunStore.SQLiteRunStore.GetEvents` | src/storage/run_store.py:294-308 | the events behind a cursor |
| `RunStore.SQLiteRunStore.ClaimRun` | src/storage/run_store.py:182-189 | compare-and-set from queued to running |
| `RunStore.SQLiteRunStore.ReleaseForRetry` | src/storage/run_store.py:207-218 | requeues while attempts are left, fails the run otherwise |
| `RunStore.SQLiteRunStore.SelectStale` | src/storage/run_store.py:223-229 | the least recently updated candidates, at most the limit, none missed |
| `RunStore.SQLiteRunStore.WriteRecovery` | src/storage/run_store.py:230-241 | the loop recovers row by row on what was read and reports each row once |
| `RunWorker.NotedLog` | src/queueing/worker.py:32-34 | each run's log grows by exactly its own notes, numbered on |
| `RunWorker.Worker.PersistAndNotify` | src/queueing/worker.py:32-34 | the event is committed and every queue of the run is full afterwards |
| `RunWorker.Worker.Play` | src/queueing/worker.py:36-73 | the agent's events and the heartbeat's renewals, one by one; the running row carries the lease of the last renewal |
| `RunWorker.Worker.Conclude` | src/queueing/worker.py:74-92 | completion, or release with a new delivery while attempts are left; the row shows the outcome or the error of the attempt |
| `RunWorker.Worker.Execute` | src/queueing/worker.py:60-99 | an execution is a run of the driver machine; the run's log gains run.started, what the agent emitted, and run.completed, run.retry_scheduled or run.failed as the row is settled, queued or failed |
| `RunWorker.Worker.Recover` | src/queueing/worker.py:45-58 | a recovery is a sweep of the driver machine and right by the table alone; each exhausted run gains run.failed, each recovered one run.recovered and a delivery if reachable, and no other run's log changes |
| `RunWorker.Worker.TakeTurn` | src/queueing/worker.py:104-110 | one turn is the driver steps its arrivals, its recovery and its delivery describe, and its recovery takes overdue runs only |
| `RunWorker.Worker.Serve` | src/queueing/worker.py:101-110 | every effect on the runs table is the run of the driver machine that the turns describe; every sweep takes only runs that are due in the table it finds; and from a sound table the move and execution bounds hold for every run |
| `RunEvents.AppendExactly` | src/storage/run_store.py:153-176 | with a stale read an append commits if and only if no other append of the run came between; then it continues 1..n without gap |
| `RunEvents.AfterIsTail` | src/storage/run_store.py:294-308 | reading behind a cursor returns the rest of the run's log in order |
| `EventStream.StreamsAreContinuous` | src/api/routes.py:715-730 | a stream opened at cursor c delivers c+1, c+2, ... of a log that is 1..n, for any interleaving |
| `EventStream.NoLostWakeup` | src/api/routes.py:720-741 | a stream blocked on an empty queue has delivered every event behind its start committed before the latest publish |
| `EventStream.WakesAreBounded` | src/events/broker.py:31-37 | a stream is woken by tokens at most as often as its run was published |
| `EventStream.PollCatchesUp` | src/api/routes.py:725-730 | one poll after a wake-up delivers everything committed behind the start |
| `EventStream.ResumedStreamsConcatenate` | src/api/routes.py:715-730 | a stream cut anywhere and the stream resumed at its cursor concatenate to an uncut one |
| `EventStream.ReconnectResumes` | src/api/routes.py:715-718 | the same address with the last delivered id as header opens at the cursor where the stream was cut |
| `EventStream.OpensExactly` | src/api/routes.py:715-718 | a stream opens behind both cursors of the client and at one of them, and a header that is no number does not matter |
| `StreamSession.Session.YieldBatch` | src/api/routes.py:726-730 | reading and yielding one batch moves the cursor and the delivered events exactly as the stream machine does |
| `StreamSession.Session.CheckStatus` | src/api/routes.py:732-734 | the stream ends if and only if the run's status is completed, failed, needs_revision or cancelled; otherwise it waits |
| `StreamSession.Session.Await` | src/api/routes.py:736-739 | a pending token is taken and resumes the stream; without one only the timeout does |
| `Broker.RunEventBroker.Subscribe` | src/events/broker.py:18-21 | adds one empty queue to the run and touches no other |
| `Broker.RunEventBroker.Unsubscribe` | src/events/broker.py:23-29 | removes the queue and leaves no empty entry behind |
| `Broker.RunEventBroker.Publish` | src/events/broker.py:31-37 | afterwards every queue of the run is full and no other queue has changed |
| `FileComponents.BuildAdjacency` | frontend/client/src/components/TaskGraph.tsx:42-47 | neighbours are exactly the paths linked by an edge in either direction |
| `FileComponents.Search` | frontend/client/src/components/TaskGraph.tsx:53-60 | the search ends and finds exactly the connectivity class of its start, each path once |
| `FileComponents.FindGroups` | frontend/client/src/components/TaskGraph.tsx:48-63 | the groups are disjoint whole classes covering all paths, each found from its first path, singletons apart |
| `FileComponents.GroupsAreClasses` | frontend/client/src/components/TaskGraph.tsx:48-63 | two paths share a group if and only if a walk of edges joins them; isolated paths are exactly the singleton classes |
| `FileLayout.SortBy` | frontend/client/src/components/TaskGraph.tsx:64-64 | a reordering in key order |
| `FileLayout.FileSpiderPositions` | frontend/client/src/components/TaskGraph.tsx:41-82 | the layout places the groups by size and first path, each ranked by degree and path from its hub outwards, and the isolated files, and nothing else |
| `FileLayout.RankingShowsDegrees` | frontend/client/src/components/TaskGraph.tsx:64-71 | larger groups come first, equal ones by first path, and no file is drawn before one of its group with more neighbours, or with as many and an earlier path |
| `FileLayout.LayoutShowsComponents` | frontend/client/src/components/TaskGraph.tsx:64-82 | exactly the paths are placed, no two share a place, and two circle the same centre if and only if edges connect them |
| `Reindex.DerivedModules` | src/workspace/store.py:674-700 | one module per scope in ascending order, with the other known scopes its files import from |
| `Reindex.RepositoryIndex.DeleteLegacyDefaults` | src/workspace/store.py:747-751 | the loop deletes the unheld manual modules of the legacy scopes, in any order |
| `Reindex.RepositoryIndex.UpsertModules` | src/workspace/store.py:752-758 | the upserts in order |
| `Reindex.RepositoryIndex.IndexRepository` | src/workspace/store.py:702-764 | the whole transaction, or LookupError with nothing changed |
| `ReindexGuarantees.DerivedShape` | src/workspace/store.py:674-700 | derived ids are exactly the scopes of the tracked paths, each once |
| `ReindexMap.ScopesGroupExactly` | src/workspace/store.py:322-333 | two tracked paths make one module if and only if both are source files under the same root with the same part below it; a path is in no module if and only if it is no source file or under none of the roots |
| `ReindexMap.ModuleShows` | src/workspace/store.py:335-342 | the module of a tracked file carries the scope's title and aliases and the kind that its root gives |
| `ReindexMap.DependsExactly` | src/workspace/store.py:684-695 | after an index a module depends on another if and only if they differ, both are tracked, and a tracked file of the one imports from the other |
| `ReindexMap.PlacedInOrder` | src/workspace/store.py:696-697 | modules stand in rows of four in the order of their scopes, no two overlapping |
| `ReindexMap.ListingRecords` | src/workspace/store.py:760-763 | the listing records commit, files, edges and the number of modules; other listings stay |
| `ReindexMap.UntrackedGoExactly` | src/workspace/store.py:728-746 | a git module that is no longer tracked stays, as an orphan, if and only if a note or a task is attached to it |
| `ReindexMap.ManualStayExactly` | src/workspace/store.py:747-751 | a manual module goes if and only if it is one of the five old defaults and holds no work |
| `ReindexMap.MarkersGoExactly` | src/workspace/store.py:728-751 | a marker goes if and only if the index deletes its module |
| `ReindexMap.IndexKeepsKeys` | src/workspace/store.py:728-758 | if every note, task and marker names a module that is there, it does after an index |
| `ReindexGuarantees.IndexKeepsWork` | src/workspace/store.py:728-751 | no note and no task is deleted or changed, under cascading deletes |
| `ReindexGuarantees.MarkersOfHeldModulesStay` | src/workspace/store.py:728-751 | markers of a module that holds a note or a task survive |
| `ReindexGuarantees.RowsReconciled` | src/workspace/store.py:728-758 | what becomes of every module row, whatever the database held before |
| `ReindexGuarantees.ActiveModulesAreDerived` | src/workspace/store.py:728-758 | the active git modules are exactly the derived ones; every other git module is orphaned and holds a note or a task |
| `ReindexGuarantees.DependenciesResolve` | src/workspace/store.py:684-697 | every dependency of a derived module names another active module of the project |
| `ReindexGuarantees.DependenciesResolveExactly` | src/workspace/store.py:717-763 | every dependency of every git module names another active module, if and only if the modules that the index orphans depend on tracked scopes only |
| `ReindexGuarantees.OrphanDangles` | src/workspace/store.py:737-746 | a database in which all dependencies resolve, and an index after which an orphan names a module that is gone |
| `ReindexGuarantees.IdsStayOwn` | src/workspace/store.py:310-312 | derived ids keep belonging to the project they were made for, which the results about derived modules rest on |
| `ReindexGuarantees.OtherProjectsUntouched` | src/workspace/store.py:717-763 | modules of other projects are left alone |
| `ReindexGuarantees.IndexTwice` | src/workspace/store.py:702-764 | indexing the same tree again changes only time stamps |
| `DesktopAuth.AuthStore.CreateDesktopAuthorization` | src/auth/store.py:162-180 | sweeps expired requests and adds a fresh one |
| `DesktopAuth.AuthStore.CompleteDesktopAuthorization` | src/auth/store.py:199-206 | compare-and-set of the completing user |
| `DesktopAuth.AuthStore.WriteClaim` | src/auth/store.py:241-252 | insert, mark, and compensate: wins exactly an undelivered request, and a loser leaves no session |
| `DesktopAuth.AuthStore.ClaimDesktopAuthorization` | src/auth/store.py:232-253 | an undisturbed claim succeeds once and makes any later one fail |
| `DesktopAuth.OneSessionPerAuthorization` | src/auth/store.py:232-253 | over every interleaving at most one claim of a request is granted a session, for the user who completed it |
| `DesktopAuth.CompletedOnce` | src/auth/store.py:199-206 | a request is completed by one user, through every continuation |
| `DesktopClaims.SessionsAreEarned` | src/auth/store.py:232-253 | over every interleaving a granted session belongs to a claim that presented the secret its request was opened with and read it before its expiry, completed and not delivered; it is the completing user's for a week |
| `DesktopClaims.ReadExactly` | src/auth/store.py:234-239 | a claim is let through, for the completing user, if and only if its request is there with that secret, live, completed and not delivered |
| `DesktopClaims.CompletedExactly` | src/auth/store.py:199-206 | a user completed a request if and only if the user's completion found it live and not completed |
| `DesktopClaims.CompletionIsDated` | src/auth/store.py:199-206 | a completed request carries the user and the time of the step that completed it |
| `DesktopClaims.RequestsLastUntilSwept` | src/auth/store.py:162-180 | a request lasts until another one is opened after its expiry, with the secret and the expiry it was opened with |
| `DesktopAuth.ClaimWinsExactly` | src/auth/store.py:241-252 | a claim in flight wins if and only if its request still exists undelivered; a losing claim changes nothing |
| `Timestamps.FieldsAreChronological` | src/workspace/store.py:306-307 | comparing fields from the year down is comparing instants, and equal instants have equal fields |
| `Timestamps.TextIsChronological` | src/workspace/store.py:306-307 | comparing the text of two UTC stamps as SQL does is comparing instants, even when one has a fraction and the other none |
| `TextOrder.Sort` | src/workspace/store.py:675-675 | Python's `sorted` on a set of strings |

## Left out

- Network, HTTP, WebSocket, Redis, git subprocesses, file reading, OAuth, encryption and token generation: their results are parameters, ids and tokens are fresh, hashes are injective.
- Clock readings are parameters. The time stamps that requests take before they wait for the write lock come in any order; the readings that a claim takes inside its transaction do not run backwards. Skewed clocks of several servers are not modelled.
- Payload validation and JSON: a payload is its typed request or the fact that it failed validation; event payloads of runs are opaque apart from the attempt number.
- `EventStream` is a state machine over the suspension points of the generator, and `StreamSession` has its loop body as methods; SSE text, keep-alive comments and the HTTP connection are not part of it.
- Delivery of `run.completed` before a stream closes is not promised: the status is settled before that event is appended.
- `RunDriver` assumes that the append after a completion does not raise, because the worker would then requeue a completed run; runs that bypass the worker (`/chat`, direct conversation, WebSocket) are left out.
- `SyncGuarantees.DeviceNeverForgets`: one call at a time per device, as only then the cursor cannot move back; `OverlappingCalls` keeps the rest with any number of calls at once, and `OverlappingRounds` says when the cursor moves back.
- `RunWorker.Worker.PersistAndNotify`: an append of the worker that raises because another append of the run interleaved is not modelled outside the agent's own run, where `Raised` covers it; `RunEvents.AppendExactly` says exactly when one does.
- `RunWorker.Worker.Execute`: the same restriction; such an exception before the agent starts ends the serve loop, which `RunDriver.Die` covers.
- `FinishableJobs.FinishesExactly`: a device is taken to file results under leases that were issued; `JobRounds.CallKeepsFiled` shows that calls do.
- `DeviceSync.RunKeeps`: liveness is not stated; a conflicting event is never acknowledged and stays among the first 100 pending.
- `Reindex`: a module id is the pair of project and scope, so a hash collision cannot be expressed; import lines are a given set of scopes per file, titles and aliases are given text functions, file and file dependency rows are replaced wholesale.
- `FileLayout.FileSpiderPositions`: places are symbolic (hub, ring slot, grid cell); the floating-point ring geometry is left out, and path ids stand for paths in locale order.
- `FileComponents.Search`: edge endpoints are among the paths, as the only caller filters them (line 119).
- `DesktopAuth`: OAuth states, roles and session revocation other than removal of a session are left out.
- `RunEvents.AfterIsTail`: the query sorts by sequence; the model returns insertion order, which is the same in a dense log.
- Policy decisions, approvals of tool calls, planning and review nodes, model fallback, metrics, pairing tokens and React rendering are left out: mostly single-branch case analysis.
