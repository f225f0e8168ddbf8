# Verified model of the backup orchestrator

The backup orchestrator is a server with agents. Agents run restic backups on a schedule, keep the job
reports they cannot deliver yet in an outbox, and talk to the server over a stream. This project models the
parts of that system where the behaviour is hard to see from one function, and proves what they promise for
every input, every run or every reachable state.

`dafny verify dfyconfig.toml` checks everything.

## What is modelled

**The agent outbox.** `SpillStore` is the SQLite spill table as the sequence of its rows ordered by
`(created_at, id)`, one function per statement; class `SpillDB` carries the statements out in place. `Outbox`
gives every operation (submit, deliver, drain, prune) as a function of the two tiers, and class `Queue` in
`OutboxQueue` runs them in place and is proved equal to those functions. The server's answers, database
failures, timestamps and cancellations are arbitrary functions of how often they were consulted, so every
theorem holds for all of them unless it says otherwise. `OutboxInterleaving` is the same code as a state
machine of any number of submitting goroutines, the worker and the pruner, one SQL statement, channel operation
or RPC at a time; `OutboxRefinement` proves that each sequential operation is a run of it.

`OutboxNoLoss`, `OutboxAcks`, `OutboxRetries`, `OutboxPaging` and `OutboxProgress` are about that machine.

**Job accounting.** `ServerJobs` is the job table with its handlers; `JobPipeline` runs scheduler slots, the
interleaved outbox and the job table together; `Scheduler` has the cron index and the per-plan slots, the
latter with interleaved `runJob` calls.

**The connected-agent registry.** `AgentRegistry` is a state machine with one step per locked section;
`AgentManager` has the object whose methods do those steps; `CommandDelivery` says what a command and its
result come to.

**Text, buffers, migrations, lifecycle, settings.** `ShellTemplate`, `Text`, `Redaction`, `TailBuffers`,
`EncryptionUpgrade`, `TableCopy`, `BackupLifecycle`, `Settings`.

What each operation comes to is stated in terms of its inputs alone, apart from the functions the methods are
proved equal to: in `OutboxResults` for the outbox, in `CommandDelivery` for the registry, and beside the
operations in the other modules.

## Main results

1. With N goroutines that can spill and caps of at most C, the table never exceeds C + N - 1 rows, and for
   every N and C some run reaches that (`SpillNeverExceeds`, `SpillReachesBound`).
2. End to end, in every interleaving in which no acknowledgement is lost and no delete fails, every `runJob`
   call is executing, about to report, in memory, in a goroutine's hands, spilled, lost on record, or a finished
   server row of its own (`CallsAreAccountedFor`). Otherwise a call has at most one finished row more for each
   acknowledgement of its report that was lost and each failed delete of it (`RowsPerCall`,
   `FinishedRowsAreBounded`).
3. No item is lost without a record, with any failures and any interleaving (`NoSilentLoss`); undisturbed and
   without failures every item is in exactly one place (`ExactlyOnePlace`).
4. Whatever fails, an item is acknowledged at most once more than deleting its own row failed
   (`AckedAtMostOnce`), and for every number of failed deletes some run reaches that (`FailedDeletesRepeat`).
5. Paging under mutation hands rows out in order and at most once, and every row that stays exactly once
   (`HandedInOrderOnce`, `DrainHandsOutEverything`, `DrainIsOnePass`); whatever other goroutines do, a drain
   takes at most four steps per row present or added, and one more (`DrainIsBounded`).
6. In every interleaving a new item is sent MaxAttempts times at most, and once more for each of its sends that
   was not counted: canceled, or recording the failure or deleting the row failed (`RetryBudget`); some run uses
   all of that up (`RetriesReachBudget`), and with every send counted a dropped item failed exactly MaxAttempts
   times (`DroppedAfterExactlyMax`). MaxAttempts + 1 undisturbed drains empty both tiers, one fewer does not
   (`DrainsEmptyOutbox`, `RefusedRowAges`).
7. Server rows only move forward, finished rows are the accepted reports, and the active count follows its law
   over every run (`RowsOnlyMoveForward`, `FinishedRowsAreAcceptedReports`, `ActiveCountOverRuns`).
8. Over every interleaving the registry never sends on a closed channel or closes one twice, and routes results
   only to their own command (`RegistryIsSafe`).
9. The sequential outbox refines the interleaved one (`DrainSteps`, `SubmitSteps`, `PruneSteps`).

These promises hold only under a condition, which is proved to be exact:

- A hook template whose placeholders all come before any construct the scanner does not follow means what its
  author wrote for all values if and only if every placeholder is outside quotes, comments, backquotes and
  braces, not right after a backslash or a dollar sign, and not in the word after `>&` or `<&`
  (`TemplateIsSafeExactly`). Not followed are arithmetic, here-documents, process substitution, `${` with an
  operator, `case` inside a command substitution, `$[` in double quotes, an unquoted dollar sign before anything
  but a name, a special parameter, `(` or `{`, and a word after `>&` or `<&` that is not digits or `-`. For any
  other such template some values make the shell read more syntax than the template has characters
  (`QuotedPlaceholderBreaks`).
- Redaction removes a secret from every text if and only if the secret neither starts nor ends with a star and
  has no mask inside (`NeverLeaksExactly`).
- After any sequence of schedule updates the live cron entries are those of the last one if and only if no
  earlier update had two schedulable plans with one id (`LiveEntries`); an entry orphaned by a repeated id
  stays for ever (`OrphansStay`).
- A table order keeps every state of the cutover copy referentially intact, for every source and destination,
  if and only if parents precede children (`SafeOrderExactly`); the repository's order does
  (`CopyTablesAreOrdered`).
- A secret stored before a key was configured survives the upgrade if and only if it is null or does not carry
  the `enc:` prefix (`KeylessValueSurvives`).
- Sending a routed command result hits a closed channel, and so crashes the server, if and only if some step
  between its lookup and its send closed the connection on which that command was still pending
  (`RoutedResultIsSafe`); `DisconnectDuringRouting` is such a run from the start.
- The `Unregister` at the end of a stream closes the stream's own connection if and only if since its
  `Register` the agent was neither registered nor unregistered again and the registry was not closed
  (`StreamClosesItsOwn`); a connection replaced by a second registration is never closed (`ReplacedStaysOpen`).
- After the last row of a page the next page goes back to that row or before it if and only if that row has an
  empty id and the table still reaches back that far (`PagingRestartsExactly`). Submitted ids are uuids, so only
  the migration of the older buffer table could bring such a row; `EmptyIdIsHandedTwice` is a whole run over one.
- A post-backup hook runs if and only if the plan has one and no pre-backup hook stopped the job
  (`PostHooksExactly`).

Where comments and code disagree, the code is modelled: the header comment of `ExecuteBackupJob`
(agent/internal/executor/backup.go:27) says that post-backup hooks always run, but a run stopped by its pre
hooks, which is exactly a run in which a failing pre hook aborts (`CutShortExactly`), runs only the on_failure
hooks; `PostHookSkipped` is a plan with a post hook and such a run.

## Assumptions

- The spill table's connection runs one statement at a time; rows compare by `(created_at, id)` as text.
- Ids of submitted items and commands are fresh; the paging and worker results need non-empty row ids.
- The cipher opens what it sealed, and what it opens is shorter than the sealed text; the sort library returns
  some sorted rearrangement; cron parsing is an arbitrary verdict per schedule text.
- A job report marshals: the source returns an error for one that does not, and keeps nothing of it.
- Each server handler runs as one step. Channels are named by addresses, fresh for each connection and command.

## Model

| member | source | states |
|---|---|---|
| `TextOrder.BeforeIsStrictTotalOrder` | agent/internal/database/db.go:164-180 | the row order (created_at, id) is a strict total order, which cursor paging and drop-oldest rely on |
| `TextOrder.LessAtFirstDifference` | agent/internal/database/db.go:164-180 | texts compare at their first difference, a proper prefix first |
| `TextOrder.TimeComesFirst` | agent/internal/database/db.go:164-180 | rows compare by time, and by id only at one time |
| `SpillStore.InsertRowIsTable` | agent/internal/database/db.go:146-156 | an insert with a new id keeps the rows ordered and ids unique |
| `SpillStore.InsertRowMembers` | agent/internal/database/db.go:146-156 | an insert adds exactly the new row |
| `SpillStore.PageIsNext` | agent/internal/database/db.go:164-202 | a page is ordered, within the limit, only has rows after the cursor, and skips none: a row left out comes after a full page |
| `SpillStore.NewerIsSuffix` | agent/internal/database/db.go:164-180 | the rows after a cursor are exactly a suffix of the ordered table |
| `SpillStore.DropOldestTakesOldest` | agent/internal/database/db.go:273-291 | every evicted row precedes every survivor, and evicted and surviving rows together are the table |
| `SpillStore.IncrementShape` | agent/internal/database/db.go:214-223 | counting a failure changes attempts and last error of that id's row and nothing else |
| `SpillStore.PruneTakesOlder` | agent/internal/database/db.go:237-247 | pruning by age takes exactly the rows created before the cutoff |
| `SpillStore.PruneTakesOldest` | agent/internal/database/db.go:250-270 | pruning by count takes the oldest rows and leaves `keep` at most |
| `SpillStore.DeleteTakesOne` | agent/internal/database/db.go:205-211 | a deletion takes that id's row and no other |
| `SpillStore.SpillDB.SpillEnqueue` | agent/internal/database/db.go:146-156 | in place: the row with the statement's timestamp, or nothing on a fault or duplicate id |
| `SpillStore.SpillDB.SpillDelete` | agent/internal/database/db.go:205-211 | in place: the rows without that id |
| `SpillStore.SpillDB.SpillIncrementAttempts` | agent/internal/database/db.go:214-223 | in place: one failure counted on that id |
| `SpillStore.SpillDB.SpillDeleteOldest` | agent/internal/database/db.go:273-291 | in place: the oldest n dropped, with their number |
| `SpillStore.SpillDB.SpillPruneByCount` | agent/internal/database/db.go:250-270 | in place: the newest `keep` rows, with the number pruned |
| `SpillStore.SpillDB.SpillPruneByAge` | agent/internal/database/db.go:237-247 | in place: rows not older than the cutoff, with the number pruned |
| `Outbox.DrainStepAdvances` | agent/internal/outbox/outbox.go:256-281 | with no other goroutine, each turn of the paging loop strictly shrinks the rows above the cursor |
| `OutboxQueue.Queue.constructor` | agent/internal/outbox/outbox.go:109-126 | starts empty in memory over the rows on disk with defaults applied |
| `OutboxQueue.Queue.UpdateConfig` | agent/internal/outbox/outbox.go:138-151 | swaps everything except the memory capacity |
| `OutboxQueue.Queue.MakeRoomForOne` | agent/internal/outbox/outbox.go:177-191 | count, then evict down to one below the cap; stops at a failed statement |
| `OutboxQueue.Queue.SubmitItem` | agent/internal/outbox/outbox.go:171-197 | in place: the submit function; an error is returned exactly when a refusal is recorded |
| `OutboxQueue.Queue.SpillItemWithEviction` | agent/internal/outbox/outbox.go:288-309 | in place: make room, and insert even when that failed |
| `OutboxQueue.Queue.DeliverItem` | agent/internal/outbox/outbox.go:315-363 | in place: the deliver function, whose results `OutboxResults` states |
| `OutboxQueue.Queue.DrainMemory` | agent/internal/outbox/outbox.go:243-254 | in place: the memory loop up to a cancellation |
| `OutboxQueue.Queue.DeliverPage` | agent/internal/outbox/outbox.go:272-280 | in place: one page row by row with the cursor it reaches |
| `OutboxQueue.Queue.Drain` | agent/internal/outbox/outbox.go:242-282 | in place: the whole drain, and it terminates |
| `OutboxQueue.Queue.Prune` | agent/internal/outbox/outbox.go:417-433 | in place: the prune by age, then by count, each on its own failure |
| `OutboxResults.AcceptedRow` | agent/internal/outbox/outbox.go:333-340 | a report's row the server accepts is deleted, no other row is, and the accepted send is recorded |
| `OutboxResults.RefusedRow` | agent/internal/outbox/outbox.go:356-360 | a refused one stays with one attempt more and the server's error |
| `OutboxResults.CanceledRow` | agent/internal/outbox/outbox.go:342-348 | a canceled one stays as it is |
| `OutboxResults.ExhaustedRow` | agent/internal/outbox/outbox.go:317-327 | a row out of attempts is deleted without a send |
| `OutboxResults.UnknownKind` | agent/internal/outbox/outbox.go:378-382 | an item of unknown kind counts as refused whatever the server would answer |
| `OutboxResults.ItemAnswered` | agent/internal/outbox/outbox.go:315-355 | from memory: an accepted report is in neither tier, a refused one spilled with one attempt more, a canceled one as it was, one out of attempts dropped unsent |
| `OutboxResults.Spilled` | agent/internal/outbox/outbox.go:288-309 | without faults the item is in the table, at most the cap remains, evicted rows precede the kept ones, and none goes while there is room |
| `OutboxResults.WorkerSpillsAnyway` | agent/internal/outbox/outbox.go:292-308 | the worker inserts even when counting failed |
| `OutboxResults.SubmitToMemory` | agent/internal/outbox/outbox.go:173-175 | room in memory takes the item and nothing else changes |
| `OutboxResults.SubmitToSpill` | agent/internal/outbox/outbox.go:176-195 | a full memory spills it as it is |
| `OutboxResults.SubmitRefused` | agent/internal/outbox/outbox.go:179-194 | a failed count, evict or insert refuses it and the rows stay |
| `OutboxResults.AcceptedDrain` | agent/internal/outbox/outbox.go:242-282 | with a server that accepts everything one drain sends each report once, memory first and then the rows in order, and leaves nothing |
| `OutboxResults.CanceledDrain` | agent/internal/outbox/outbox.go:251-263 | during a shutdown a drain delivers one item of memory and no row |
| `OutboxResults.Pruned` | agent/internal/outbox/outbox.go:417-433 | a prune leaves the newest rows not older than the cutoff, up to the cap |
| `OutboxConfig.DefaultsFillGaps` | agent/internal/outbox/outbox.go:64-92 | a field that is not positive takes its documented default, any other is kept |
| `OutboxLedger.RunBalances` | agent/internal/outbox/outbox.go:171-197 | over any run and failures no submitted item vanishes unrecorded; without failures none is recorded twice |
| `OutboxLedger.ExactlyOnePlace` | agent/internal/outbox/outbox.go:242-363 | without failures an item submitted once is in exactly one of memory, spill and the record of how it left |
| `OutboxDrain.DrainIsOnePass` | agent/internal/outbox/outbox.go:256-281 | a drain equals delivering each row of the table as it stood once, in order: paging is invisible |
| `OutboxDrain.PassAges` | agent/internal/outbox/outbox.go:315-363 | one pass counts an attempt on every row that stays and leaves none that is out of attempts |
| `OutboxDrain.DrainsEmptyOutbox` | agent/internal/outbox/outbox.go:242-282 | MaxAttempts + 1 drains empty memory and spill whatever the server answers |
| `OutboxDrain.RefusedRowAges` | agent/internal/outbox/outbox.go:315-363 | with a server that always refuses, up to MaxAttempts drains keep the row, so the bound is tight |
| `OutboxDrain.SubmitSlides` | agent/internal/outbox/outbox.go:177-195 | a spilled submit leaves the last cap rows of the old table with the new one |
| `OutboxDrain.SpillIsWindow` | agent/internal/outbox/outbox.go:177-195 | after any number of ordered spills the table is the last cap rows ever stored, which pruning by count leaves alone |
| `OutboxRetries.StepTracks` | agent/internal/outbox/outbox.go:315-363 | every copy of an item shows how often it was sent, but for the row whose failure is being recorded or that is being deleted |
| `OutboxRetries.RetryBudget` | agent/internal/outbox/outbox.go:315-363 | in every interleaving with any failures, an item is sent as often as the largest configured MaxAttempts less the attempts it started with, and once more per uncounted send, at most; it is dropped only after as many failures as the smallest one leaves |
| `OutboxRetries.DroppedAfterExactlyMax` | agent/internal/outbox/outbox.go:315-327 | with every send counted a new item is sent MaxAttempts times at most, and a dropped one failed exactly that often |
| `OutboxRetries.RetriesReachBudget` | agent/internal/outbox/outbox.go:315-363 | for every MaxAttempts m and every n a run sends a new item m + n times with n sends uncounted |
| `OutboxInterleaving.StepKeepsBound` | agent/internal/outbox/outbox.go:177-195 | the inductive bound: rows plus goroutines about to insert |
| `OutboxInterleaving.SpillNeverExceeds` | agent/internal/outbox/outbox.go:288-309 | in every fault-free interleaving, hot-swapped caps included, at most C + N - 1 rows |
| `OutboxInterleaving.SpillReachesBound` | agent/internal/outbox/outbox.go:177-195 | for every N and C a fault-free run reaches C + N - 1 rows |
| `OutboxNoLoss.NoSilentLoss` | agent/internal/outbox/outbox.go:171-363 | in every reachable state with any failures each item is live or its end recorded, and never in both tiers |
| `OutboxPaging.HandedInOrderOnce` | agent/internal/outbox/outbox.go:256-281 | a drain's rows come in strictly increasing order and none twice, whatever happens to the table between pages |
| `OutboxPaging.DrainHandsOutEverything` | agent/internal/outbox/outbox.go:256-281 | a drain that reaches an empty page handed out exactly once every row present throughout |
| `OutboxProgress.StepAdvances` | agent/internal/outbox/outbox.go:256-281 | rows above the cursor, rows left in the page and the phase of the delivery fall on every worker step of a drain, and no other step raises them but an insert |
| `OutboxProgress.DrainIsBounded` | agent/internal/outbox/outbox.go:256-281 | in every interleaving a drain takes at most four steps per row there at its start or added since, and one more |
| `OutboxProgress.PagingRestartsExactly` | agent/internal/database/db.go:164-180 | over any table, paging goes back after a page's last row exactly when that row has no id and the table still reaches back to it |
| `OutboxProgress.EmptyIdIsHandedTwice` | agent/internal/database/db.go:106-121 | a whole run over one migrated row without an id hands it out twice |
| `OutboxAcks.StepKeepsGone` | agent/internal/outbox/outbox.go:315-363 | an item that is nowhere but in the row being deleted stays so and is not sent, unless that delete fails |
| `OutboxAcks.AckedAtMostOnce` | agent/internal/outbox/outbox.go:315-363 | in every interleaving with any failures, an item is acknowledged at most once more than deletes of its own row failed, and it is on record as acknowledged exactly when it was |
| `OutboxAcks.FailedDeletesRepeat` | agent/internal/outbox/outbox.go:334-341 | for every n a run with n failed deletes of one row acknowledges it n + 1 times |
| `OutboxRefinement.SubmitSteps` | agent/internal/outbox/outbox.go:171-197 | a sequential submit is a run of the interleaved outbox |
| `OutboxRefinement.DeliverSteps` | agent/internal/outbox/outbox.go:315-363 | so is a delivery from either tier |
| `OutboxRefinement.DrainSteps` | agent/internal/outbox/outbox.go:242-282 | so is a whole drain with every failure and cancellation |
| `OutboxRefinement.PruneSteps` | agent/internal/outbox/outbox.go:417-433 | so is a prune pass |
| `ServerJobs.ConvertResults` | server/internal/grpcserver/report.go:84-117 | converting the reported repository results loses nothing: it converts back to the report |
| `ServerJobs.ConvertHooks` | server/internal/grpcserver/report.go:119-134 | nor does converting the hook results |
| `ServerJobs.JobStore.CreateJob` | server/internal/database/jobs.go:69-121 | in place: a row with a new id, or nothing |
| `ServerJobs.JobStore.CreatePlannedJob` | server/internal/database/jobs.go:261-283 | in place: one planned row per trigger, or nothing when the insert fails |
| `ServerJobs.Newest` | server/internal/database/jobs.go:286-301 | an active row of the agent and plan with none after it, or there is none at all |
| `ServerJobs.JobStore.CompleteJob` | server/internal/database/jobs.go:346-392 | in place: that row finished with the report's values |
| `ServerJobs.JobStore.StoreJobReport` | server/internal/grpcserver/report.go:154-178 | in place: the complete-or-create decision |
| `ServerJobs.JobStore.HandleJobStarted` | server/internal/grpcserver/connect.go:218-256 | in place: the newest active row of the started plan becomes running, or nothing changes when one of the three calls fails |
| `ServerJobs.StartedRowRuns` | server/internal/grpcserver/connect.go:246-255 | the plan's last open row becomes running and no other row changes |
| `ServerJobs.NothingStarts` | server/internal/grpcserver/connect.go:224-250 | without an open row, or when a call fails, nothing changes |
| `ServerJobs.FirstPlanOfName` | server/internal/grpcserver/connect.go:230-236 | a heartbeat's name stands for the first plan of that name |
| `ServerJobs.NoPlanOfName` | server/internal/grpcserver/connect.go:230-241 | and for none when there is none |
| `ServerJobs.ReportFinishesRow` | server/internal/grpcserver/report.go:162-174 | a report finishes its plan's last open row, which keeps its id, name and trigger, and changes no other |
| `ServerJobs.ReportMakesRow` | server/internal/grpcserver/report.go:154-178 | any other report becomes a row of its own under its job id or a fresh one, with the report's fields |
| `ServerJobs.TriggerAddsPlanned` | server/internal/database/jobs.go:261-283 | a trigger adds one planned row at the end, unless its id is taken or the insert fails |
| `ServerJobs.ResultColumns` | server/internal/grpcserver/report.go:84-117 | every reported number and text arrives in its own column, a missing one as NULL |
| `ServerJobs.HookColumns` | server/internal/grpcserver/report.go:119-134 | the same for hook results |
| `ServerJobs.HandleAdvances` | server/internal/grpcserver/connect.go:218-256 | each trigger, heartbeat or report moves rows forward only |
| `ServerJobs.RowsOnlyMoveForward` | server/internal/database/jobs.go:261-392 | over any triggers, heartbeats and reports rows keep their id and never move back, and a finished row is never touched again |
| `ServerJobs.AbortedTouchesNothing` | server/internal/grpcserver/report.go:154-178 | an accepted aborted report adds one row and changes none |
| `ServerJobs.FinishedRowsAreAcceptedReports` | server/internal/grpcserver/report.go:154-178 | after any run finished rows and accepted reports correspond one to one |
| `ServerJobs.ActiveCountLaw` | server/internal/database/jobs.go:261-301 | one more active row per trigger, one fewer, not below zero, per accepted report that is not aborted |
| `ServerJobs.ActiveCountOverRuns` | server/internal/database/jobs.go:261-301 | that law over every run |
| `JobPipeline.StepPlaces` | agent/internal/scheduler/scheduler.go:148-172 | every step of the pipeline, failing or not, keeps each call in one place, the accepted reports those of the delivered calls, and the bound on repeated deliveries |
| `JobPipeline.Partition` | agent/internal/outbox/outbox.go:171-363 | submitted reports are in memory, in hand, spilled, lost or acknowledged, exactly one of them, and what is lost was evicted, pruned, dropped or refused on record |
| `JobPipeline.CallsAreAccountedFor` | server/internal/grpcserver/report.go:154-178 | when no acknowledgement was lost and no delete failed, the calls made are those executing, about to report, in memory, in hand, spilled and lost, plus the finished rows, each showing the report of another call |
| `JobPipeline.RowsPerCall` | server/internal/grpcserver/report.go:154-178 | whatever fails, each finished row shows the report of its call, and a call has at most one more than its lost acknowledgements and failed deletes |
| `JobPipeline.FinishedRowsAreBounded` | server/internal/grpcserver/report.go:154-178 | finished rows are at most calls, lost acknowledgements and failed deletes together |
| `AgentRegistry.StepKeepsSafe` | server/internal/agentmgr/manager.go:49-153 | every locked section keeps the registry invariant |
| `AgentRegistry.RegistryIsSafe` | server/internal/agentmgr/manager.go:49-262 | in every interleaving no send on a closed channel, no double close, registered channels open, results only for their command and agent, no pending entry of a returned command |
| `AgentRegistry.RoutedResultIsSafe` | server/internal/agentmgr/manager.go:164-184 | the send of a routed result crashes exactly when, between lookup and send, a step closed the connection its command was still pending on |
| `AgentRegistry.DisconnectDuringRouting` | server/internal/agentmgr/manager.go:172-180 | a concrete run in which it does |
| `AgentRegistry.StepClosesExactly` | server/internal/agentmgr/manager.go:62-79 | which steps close which response channel |
| `AgentRegistry.RegisterIsIsolated` | server/internal/agentmgr/manager.go:49-59 | a registration keeps every other connection and leaves the new one open and empty |
| `AgentRegistry.ReplacedStaysOpen` | server/internal/agentmgr/manager.go:49-59 | a connection replaced by a second registration is never closed |
| `AgentRegistry.StreamClosesItsOwn` | server/internal/grpcserver/connect.go:53-54 | a stream's closing Unregister closes its own connection exactly when the agent was not displaced since |
| `AgentManager.CloseOneMore` | server/internal/agentmgr/manager.go:245-262 | closing registered connections one after the other is closing them all |
| `AgentManager.Manager.CloseConnection` | server/internal/agentmgr/manager.go:66-77 | in place: every pending channel and the send channel closed once, the entry removed |
| `AgentManager.Manager.Unregister` | server/internal/agentmgr/manager.go:62-79 | in place: the unregistration step |
| `AgentManager.Manager.Close` | server/internal/agentmgr/manager.go:245-262 | in place: every agent closed the first time, nothing the second |
| `AgentManager.Manager.Send` | server/internal/agentmgr/manager.go:82-96 | in place: the message queued exactly when the agent is there and has room |
| `AgentManager.Manager.BeginCommand` | server/internal/agentmgr/manager.go:99-135 | in place: the first part of a command, waiting exactly when it was queued |
| `AgentManager.Manager.CleanUp` | server/internal/agentmgr/manager.go:137-142 | in place: afterwards no connection has an entry for the command |
| `AgentManager.Manager.HandleCommandResult` | server/internal/agentmgr/manager.go:164-184 | in place: undisturbed, the result goes to its channel once and never to a closed one |
| `CommandDelivery.MessageQueued` | server/internal/agentmgr/manager.go:82-96 | a message goes to the end of its agent's queue when there is room, and nowhere otherwise |
| `CommandDelivery.CommandBegins` | server/internal/agentmgr/manager.go:99-135 | a command is pending on an open, empty channel of its own, queued last, and waits exactly when there was room |
| `CommandDelivery.ResultArrives` | server/internal/agentmgr/manager.go:164-184 | undisturbed, the first result of a pending command is put on its channel and nothing else changes |
| `CommandDelivery.ResultDropped` | server/internal/agentmgr/manager.go:164-184 | a second result, one for no pending command and one from an agent that is not connected change nothing |
| `CommandDelivery.RoutedResultArrives` | server/internal/agentmgr/manager.go:179-183 | among other steps the send puts the result on the channel it was looked up for, if that is open and empty |
| `CommandDelivery.ResultWaitsForCaller` | server/internal/agentmgr/manager.go:144-153 | in every interleaving a result on a waiting call's channel stays until the call takes it or times out, and taking it gives exactly that result |
| `CommandDelivery.WaiterWithoutResult` | server/internal/agentmgr/manager.go:144-153 | on an empty channel a call waits while it is open, learns of the disconnection when it is closed, and can time out |
| `CommandDelivery.AgentDisconnects` | server/internal/agentmgr/manager.go:62-79 | unregistering closes the agent's connection and the channels of exactly its pending commands, keeping what arrived |
| `CommandDelivery.RegistryCloses` | server/internal/agentmgr/manager.go:245-262 | closing disconnects every agent, once |
| `CommandDelivery.HeartbeatTransitions` | server/internal/agentmgr/manager.go:202-229 | the four transitions |
| `AgentManager.Manager.UpdateHeartbeat` | server/internal/agentmgr/manager.go:202-229 | in place: the transition between previous and reported job, and only that connection changes |
| `AgentManager.StartsMatchStops` | server/internal/agentmgr/manager.go:186-229 | over any heartbeats starts and stops differ by exactly the change in being busy |
| `Scheduler.UpdateOrphans` | agent/internal/scheduler/scheduler.go:70-114 | an update orphans exactly the entries whose plan id a later plan of it repeats |
| `Scheduler.LiveEntries` | agent/internal/scheduler/scheduler.go:70-114 | live entries are exactly the last update's schedulable plans iff no earlier update repeated an id |
| `Scheduler.OrphansStay` | agent/internal/scheduler/scheduler.go:78-82 | an orphaned entry outlives every later update |
| `Scheduler.EntriesAreSchedulable` | agent/internal/scheduler/scheduler.go:84-113 | without orphans an update leaves entries for exactly its enabled plans with a schedule that parses |
| `Scheduler.OneJobPerPlan` | agent/internal/scheduler/scheduler.go:148-208 | in every interleaving one job per plan, one report per call, aborted exactly when its slot was held |
| `Scheduler.RefusedExactlyWhenBusy` | agent/internal/scheduler/scheduler.go:177-189 | a call is refused exactly when a job of its plan is in progress at that moment |
| `Scheduler.Scheduler.UpdateSchedule` | agent/internal/scheduler/scheduler.go:70-114 | in place: the two loops compute the update function |
| `Scheduler.Scheduler.TryStartJob` | agent/internal/scheduler/scheduler.go:177-189 | in place: the slot is taken exactly when it was free |
| `Scheduler.Scheduler.RunJob` | agent/internal/scheduler/scheduler.go:148-172 | undisturbed, exactly one report and the slots as before |
| `Scheduler.Scheduler.EarliestJob` | agent/internal/scheduler/scheduler.go:216-231 | none when idle, otherwise a job no other started before |
| `Text.ReplaceJoinsGaps` | agent/internal/redact/redact.go:21-26 | replacement joins the gaps between leftmost occurrences, which joined by the original give the text |
| `Text.ReplaceCharacter` | agent/internal/executor/hooks.go:67-69 | replacing one character goes character by character |
| `ShellTemplate.QuoteRoundTrip` | agent/internal/executor/hooks.go:64-69 | a POSIX shell reads a quoted value as one literal word with exactly its characters and is outside quotes after it |
| `ShellTemplate.PrefixFree` | agent/internal/executor/hooks.go:213-228 | no text starts with two placeholders |
| `ShellTemplate.NoOverlap` | agent/internal/executor/hooks.go:213-228 | no placeholder starts inside another |
| `ShellTemplate.OrderIrrelevant` | agent/internal/executor/hooks.go:213-228 | the order in which replacements are listed does not matter |
| `ShellTemplate.PlaceholderReplaced` | agent/internal/executor/hooks.go:208-228 | every placeholder becomes its own value, quoted, wherever it stands |
| `ShellTemplate.OtherTextKept` | agent/internal/executor/hooks.go:208-228 | a character at which no placeholder starts stays |
| `ShellTemplate.PlaceholderTexts` | agent/internal/executor/hooks.go:213-219 | the first six placeholders as authors write them |
| `ShellTemplate.MorePlaceholderTexts` | agent/internal/executor/hooks.go:220-225 | the other five |
| `ShellTemplate.ExpansionMeansTemplate` | agent/internal/executor/hooks.go:208-228 | with every placeholder unquoted the shell reads each value as one literal word and the rest as before, in any nesting of command substitutions |
| `ShellTemplate.QuotedPlaceholderBreaks` | agent/internal/executor/hooks.go:208-228 | any other tracked template has values of which characters reach the shell as its own syntax: it reads more syntax than the template has characters |
| `ShellTemplate.TemplateIsSafeExactly` | agent/internal/executor/hooks.go:208-228 | both directions for all values, the second for templates without constructs the scanner does not follow |
| `Redaction.MaskableNeverLeaks` | agent/internal/redact/redact.go:21-26 | such a secret is in no output |
| `Redaction.NeverLeaksExactly` | agent/internal/redact/redact.go:19-26 | the exact condition on the secret |
| `Redaction.StarlessIsRemoved` | agent/internal/redact/redact.go:19-26 | a secret without stars never survives and the output is the gaps joined by the mask |
| `Redaction.NowhereInOutput` | agent/internal/redact/redact.go:19-26 | such a secret is at no place of any output |
| `Redaction.LeftmostMasked` | agent/internal/redact/redact.go:19-26 | the leftmost occurrence becomes five stars and the rest is treated alike |
| `Redaction.NothingToMask` | agent/internal/redact/redact.go:19-26 | a text without the secret stays, and so does any text when there is no secret |
| `Redaction.FlagsGoOn` | agent/internal/redact/redact.go:64-79 | an argument is masked exactly after an unmasked sensitive flag |
| `Redaction.Args` | agent/internal/redact/redact.go:64-79 | an argument is masked exactly after an odd run of sensitive flags |
| `TailBuffers.ShiftDown` | agent/internal/executor/restic.go:70-72 | the overlapping copy in place moves the tail to the front |
| `TailBuffers.TailBuffer.Write` | agent/internal/executor/restic.go:54-75 | in place: the buffer stays the last max bytes of everything written, truncated exactly when more was |
| `TailBuffers.TailBuffer.String` | agent/internal/executor/restic.go:78-85 | marker exactly on truncation, then the tail |
| `TailBuffers.CollectStdout` | agent/internal/executor/restic.go:376-386 | standard output as the bounded tail of all lines with their newlines |
| `TailBuffers.FramedLines` | agent/internal/executor/restic.go:376-386 | the stream is the lines in order, each with its newline |
| `TailBuffers.CaptureStderr` | agent/internal/executor/restic.go:394-443 | standard error as the masked bounded tail, in which a starless password does not occur |
| `TailBuffers.LineTail.Add` | agent/internal/executor/restic.go:179-187 | in place: the last 200 lines |
| `TailBuffers.ReadBackup` | agent/internal/executor/restic.go:160-238 | over a whole run: status lines counted, the last decodable summary kept, the last 200 other lines in order |
| `TailBuffers.DiagnosticLines` | agent/internal/executor/restic.go:160-238 | text, other messages and summaries that do not decode are kept line by line, status lines counted |
| `EncryptionUpgrade.WriteThenRead` | server/internal/database/db.go:49-87 | what is written is read back, null and every text included, and is stored prefixed under a key |
| `EncryptionUpgrade.CrashKeepsReads` | server/internal/database/db.go:101-140 | after any number of its updates every row still reads the same |
| `EncryptionUpgrade.CompletedIsPrefixed` | server/internal/database/db.go:101-178 | after a completed upgrade every value that is neither null nor empty begins with `enc:` |
| `EncryptionUpgrade.UpgradeSealsExactly` | server/internal/database/db.go:101-128 | exactly the texts without `enc:` are sealed, and the upgrade fails exactly when one cannot be |
| `EncryptionUpgrade.ReadsByPrefix` | server/internal/crypto/crypto.go:43-78 | a text without `enc:` reads as itself, one with it is opened under a key |
| `EncryptionUpgrade.RerunChangesNothing` | server/internal/database/db.go:101-178 | another upgrade then has nothing to do |
| `EncryptionUpgrade.UpgradeSurvivesCrashes` | server/internal/database/db.go:90-178 | any number of interrupted starts keep every read, and a completed one is final |
| `EncryptionUpgrade.KeylessValueSurvives` | server/internal/crypto/crypto.go:43-83 | a value stored without a key still reads the same under it exactly when it is null or has no prefix |
| `EncryptionUpgrade.Database.CollectChanges` | server/internal/database/db.go:101-128 | the read pass computes the list of changes or fails |
| `EncryptionUpgrade.Database.MigrateRepositoryPasswords` | server/internal/database/db.go:101-140 | in place: a prefix of the changes on failure, all of them on success |
| `EncryptionUpgrade.Database.MigrateAgentRcloneConfigs` | server/internal/database/db.go:143-178 | the same for the nullable column |
| `EncryptionUpgrade.Database.MigrateEncryption` | server/internal/database/db.go:90-98 | in place: every secret reads as before whatever fails, and on success nothing is left to encrypt |
| `TableCopy.CopyIsSafe` | server/internal/database/migrate/migrate.go:103-121 | every state of drop, create and copy is referentially intact and the result is the source, other tables untouched |
| `TableCopy.WrongOrderBreaks` | server/internal/database/migrate/migrate.go:17-29 | a child before its parent breaks integrity for some intact source |
| `TableCopy.SafeOrderExactly` | server/internal/database/migrate/migrate.go:17-29 | an order is safe for all intact databases iff parents come first |
| `TableCopy.IntactExactly` | server/internal/database/migrations.go:10-169 | integrity means that every reference names the id of a row of the parent table |
| `TableCopy.CopyTablesAreOrdered` | server/internal/database/migrations.go:10-169 | the repository's table list is such an order for its own foreign keys |
| `TableCopy.Remote.RunScript` | server/internal/database/migrate/migrate.go:103-121 | in place: the loops send a prefix of the script, all of it on success |
| `TableCopy.Remote.ImportToRemote` | server/internal/database/migrate/migrate.go:85-123 | in place: wherever it stops the destination is intact; finished it is the source; without force existing tables are left alone |
| `BackupLifecycle.RunHooks` | agent/internal/executor/hooks.go:171-206 | a phase runs a sorted rearrangement of its hooks, cut short only right after a failing hook that aborts |
| `BackupLifecycle.BackupToRepo` | agent/internal/executor/backup.go:231-322 | prepare, back up, then forget and prune, whose failures do not matter |
| `BackupLifecycle.BackupRepositories` | agent/internal/executor/backup.go:112-166 | one stretch of events and one result per repository id in the plan's order |
| `BackupLifecycle.Summarize` | agent/internal/executor/backup.go:174-213 | aggregate status, totals over the successful repositories and last snapshot |
| `BackupLifecycle.ExecuteBackupJob` | agent/internal/executor/backup.go:31-228 | every run fits the grammar of its phases and the report lists exactly the hooks that ran |
| `BackupLifecycle.PhaseEvents` | agent/internal/executor/hooks.go:171-206 | a phase's hooks are of its event, in sort order, and all of them unless one stopped it |
| `BackupLifecycle.PhaseIsComplete` | agent/internal/executor/hooks.go:171-206 | a phase runs every hook of its event unless a failed hook aborts; others that fail do not stop it |
| `BackupLifecycle.HookOutcomes` | agent/internal/executor/hooks.go:171-206 | each hook that ran is configured for the event and was told the phase's context |
| `BackupLifecycle.RepositorySucceeds` | agent/internal/executor/backup.go:231-287 | a repository succeeds exactly when preparing it and backing it up do |
| `BackupLifecycle.RetentionApplied` | agent/internal/executor/backup.go:288-330 | forget under the plan's policy before the default one, prune only after that |
| `BackupLifecycle.LastOfId` | agent/internal/executor/backup.go:107-111 | of several repositories under one id the last counts |
| `BackupLifecycle.UnknownIsSkipped` | agent/internal/executor/backup.go:117-131 | an id without a repository is skipped as unknown |
| `BackupLifecycle.TotalsAddUp` | agent/internal/executor/backup.go:181-198 | totals add up over the repositories and the last snapshot wins |
| `BackupLifecycle.TotalsOfOne` | agent/internal/executor/backup.go:181-198 | one repository counts exactly when it succeeded |
| `BackupLifecycle.HooksAreTold` | agent/internal/executor/backup.go:75-213 | what pre hooks, outcome hooks and the failure hooks after an abort are told |
| `BackupLifecycle.HooksReported` | agent/internal/executor/backup.go:333-345 | each hook that ran is reported under its name, phase and outcome, and nothing else is |
| `BackupLifecycle.LifecycleOrder` | agent/internal/executor/backup.go:85-228 | stages in order, success hooks only when all succeeded and failure hooks only when not, an aborting pre hook skips repositories and post hooks |
| `BackupLifecycle.CutShortExactly` | agent/internal/executor/backup.go:85-105 | a run is cut short exactly when a failing pre hook aborts |
| `BackupLifecycle.PostHooksExactly` | agent/internal/executor/backup.go:22-213 | a post hook runs exactly when the plan has one and no pre hook stopped the job |
| `BackupLifecycle.PostHookSkipped` | agent/internal/executor/backup.go:27-105 | a plan and a run whose post hook does not run |
| `BackupLifecycle.StatusRule` | agent/internal/executor/backup.go:174-183 | success, partial or failed exactly by all, some or none, success when there are no repositories |
| `Settings.Resolve` | server/internal/configpush/resolver.go:326-503 | each pushed value is the override if positive, else the global; nothing is pushed exactly when all are zero; fails exactly when a query does |
| `Settings.SecondsDoNotOverflow` | agent/cmd/agent/main.go:504-522 | no 32-bit second count overflows 64-bit nanoseconds |
| `Settings.OutboxPrecedence` | agent/cmd/agent/main.go:504-522 | each tunable is the first positive of override, global and default whatever ran before |
| `Settings.NothingMeansZeros` | server/internal/configpush/resolver.go:491-494 | pushing nothing instead of zeros changes nothing |
| `Settings.OnlyLastPushCounts` | agent/internal/outbox/outbox.go:138-151 | over any pushes the memory capacity never changes, all fields stay positive, and only the last push counts |
| `Settings.StreamHandler.CommandTimeout` | agent/internal/grpcclient/stream.go:83-114 | the pushed deadline if positive, else the built-in one |
| `Settings.DeadlineEndToEnd` | server/internal/configpush/resolver.go:326-404 | from the tables to a command's deadline: first positive of override, global and default |
| `Settings.TunablesEndToEnd` | server/internal/configpush/resolver.go:432-503 | the same for the outbox over any earlier configuration |

## Left out

- Backoff sleeping and write-ahead-log checkpoints of the outbox: they change no queue state.
- `Run` may return with items still in memory; the drain theorems are about drains, not about shutdown.
- `JobPipeline.CallsAreAccountedFor`: excludes lost acknowledgements and failed deletes, because either can make
  the server record a report twice; `RowsPerCall` and `FinishedRowsAreBounded` bound that.
- `AgentRegistry.RegistryIsSafe`: says nothing about response channels, because the send of a command result
  happens outside the lock; `RoutedResultIsSafe` says exactly when it is safe.
- `AgentManager.Manager.BeginCommand`: enters the pending entry and offers the command in one step, because the
  registry's lock is held across both and the answer to a fresh command id cannot arrive before it is sent.
- `AgentManager.Manager.HandleCommandResult`: is stated for an undisturbed call, because its three sections are
  separate steps of the state machine.
- Channels and connection records are addressed by number instead of being heap objects, so aliasing of records
  outside the registry is not modelled.
- `Scheduler.Scheduler.RunJob`: is stated for an undisturbed call, because interleaved calls are the state
  machine's; the backup itself is in `BackupLifecycle`.
- `ServerJobs.JobStore.HandleJobStarted`: runs as one step, although the source finds and updates without a guard.
- Live log batches (server/internal/database/jobs.go:305), which may still append to the log of a finished row:
  the model's log tails are those of the reports.
- Report statuses planned and running, which the agent never sends, are excluded from reports.
- An older planned row may stay active for ever, because the newest is completed: the active count allows it.
- `ShellTemplate.TemplateIsSafeExactly`: says nothing of placeholders after a construct that is not followed,
  because the standard leaves most of these to the shell; nor of what evaluates a word again after reading it,
  such as `eval`, bash's `a[..]=` subscripts and the arithmetic of its `[[`; nor of values with a NUL, which no
  command line can carry.
- `TailBuffers.TailBuffer.Write`: uses a buffer of full size from the start, because slice growth does not
  change contents.
- Base64, AES-GCM, SQLite, gRPC, restic and cron parsing are abstract functions; clocks and uuids are inputs.
- `Settings.Resolve`: serves both resolvers, because they differ only in their field lists.
- Case folding of sensitive names in `Redaction.Args` is an arbitrary predicate, and `Env` applies it to
  each variable in a one-line loop, which is not modelled.
- Later ALTER TABLE migrations and indexes of the copied schema.
- CRUD handlers, router, event hub, log buffers, reconnect delay, frontend and release scripts: they forward
  values or display them.
