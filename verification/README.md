# KUKAN: verified models of its queue, its lake and the arithmetic around them

KUKAN is a data catalogue. Some of what it does is easy to get almost right: jobs leased from one
table by several workers, a fast form of replacing a table, diffs that have to add up, a binary
patched in place, quoted text numbered line by line. Each module here models one such part of the
repository as the code does it, error paths and edge cases included, and proves what it is for.
Code that changes state step by step is a method or a class whose contracts tie the new state to
a specification function; the laws are lemmas about those functions, over all inputs or all runs.

- **The leased job queue** (`JobTable`, `Scheduler`, `QueueSystem`, `QueueWakeups`, `QueueLeases`,
  `QueueTiming`, `QueueLimits`, `QueueAccounts`, `QueueProgress`, `PostgresJobQueue`). One statement of the queue is one atomic step
  on the `job` table; one stretch of a worker's code between two awaits is one atomic step of its
  process. A trace is any interleaving of these with writers, administrators, lost answers, lost
  extensions and the clock. Proved over every trace: the table's invariant, that no wake-up is
  lost, that a sleeping process has its timer set for what it left waiting, that a run whose
  extensions land in time keeps its job and has it to itself, that a handler which never returns
  loses it, how often a handler may start, that no job leaves before its handler is done, and what
  each end of a handler makes of its job.
- **Loading and comparing versions** (`LakeTables`, `LakeIngest`, `LakeDiff`, `LakeSamples`). Rows are
  maps from column to value with NULL as a value, tables are bags of rows. Proved: exactly when the
  two MERGE statements replace a table, exactly when a load succeeds, that every recorded snapshot
  reads back its own version through any sequence of loads, failed or refused ones included, that
  the keyless diff's groups turn one version into the other, that the keyed diff, the keyless diff
  and the load agree, and that what a diff sends can be read back.
- **A ceiling on a WebAssembly module's memory** (`WasmMemory`): LEB128 both ways, sections parsed
  and printed, and the patch that changes one of them, after the WebAssembly Core Specification
  1.0 (sections 5.2.2, 5.3.4, 5.5.2 and 5.5.8).
- **CSV record numbers** (`CsvRecords`): the line-by-line walk against a single pass over the text,
  and against text written under section 2 of RFC 4180.
- **Chunks of text** (`Utf8`, `ContentChunks`): cutting to a byte limit (section 3 of RFC 3629), the
  chunk cutter, and its two users, which must cut the same chunks.
- **Spill directories** (`SpillRegistry`, `LakeInstances`, `LakeService`): the registry and the instance cache in any
  interleaving of sessions opening, failing, losing their instance and closing, of idle release
  and of shutdown.
- **Deploying many sites** (`DeployBudget`, `ConnectionLimits`, `ConfigMerge`): waves, what a deploy
  from one configuration to the next may have open at every moment against the budget, the advice
  it gives, and the merge behind the sizes.

`dafny verify dfyconfig.toml` checks the whole project.

## What the code does that its comments do not say

Each is a lemma with the input or run that shows it, and beside it another with the exact
condition under which the code does what it is for.

- `QueueLimits.SharedOwnerLosesLease`: the lease's owner is one per process, so it fences processes
  from each other but not the lanes of one process. A lane whose lease ran out can, by failing,
  clear the lease of the run another lane of its process has since begun.
  `QueueLimits.LeaseIsSafeIffAlone` gives the exact condition: a punctual run is safe however the
  system goes on if and only if no other lane of its process may still send anything about its job.
- `QueueLimits.OwnLeaseIsForgotten`: a process that lost the answer to its claim sets no timer for the
  row leased to it, since the question what is due next passes over its own rows.
  `QueueLimits.SleepCovers`: a process going to sleep covers a ready row exactly when some row it
  does not hold is ready no later.
- `LakeTables.KeyedLoadExact`: the keyed load is right exactly when no two rows of the table share the
  key of an incoming one; the shared key of both versions is what secures that.
- `Utf8.OwnReplacementIsLost`: a text whose cut falls just behind a replacement character of its own
  loses that character too; `TruncationKeeps` says exactly what is kept of every text.
- `LakeInstances.SetupFailureAbandons`: the clean-up after a failed setup deletes its key without
  asking whose promise is under it. Behind a shutdown it can take a newer instance out of the
  cache, which nothing then retires; `StepAbandons` says this is the only way.
- `DeployBudget.LoweringPoolsExceeds`: the budget sizes the tasks a deploy replaces by the settings it
  deploys. Where those lower a site's pools, the advice the check itself gives, an accepted deploy
  can pass the database's limit, since later sites still run under their old settings while
  earlier ones already use the room. `DeployStaysWithin` says exactly when a deploy stays within a
  limit, and `AcceptedNeverExceeds` that an accepted one does wherever no site shrinks.
- `ConfigMerge.UnsetSectionMatters`: the budget and the deploy merge three settings in different
  groupings, and an environment that unsets a section a site then sets in part makes them differ.
  `MergeGroups` and `BudgetCountsDeployed` say exactly when they agree.

## Model

| member | source | states |
|---|---|---|
| JobTable.StatementKeepsInv | packages/queue/src/postgres.ts:439-494 | every statement keeps the table's invariant: leased means ready with 1 to MAX_ATTEMPTS attempts, dead means unleased with all of them used, ready and unleased means some are left |
| JobTable.HistoryKeepsInv | packages/queue/src/postgres.ts:632-745 | the invariant holds after any history of statements by any owners |
| JobTable.NoneStuck | packages/queue/src/postgres.ts:632-662 | every ready job is takeable or to be buried once its due time and its lease have passed, and not takeable before |
| JobTable.ClaimIsDetermined | packages/queue/src/postgres.ts:647-674 | a claim answers with the first takeable row by priority and due time among those not locked just then, and with nothing only if there is none; the answer is unique |
| JobTable.ClaimTakesMostUrgent | packages/queue/src/postgres.ts:647-656 | no takeable job is of a higher priority than the one a claim takes, or of the same and due sooner |
| JobTable.StandsInExactly | packages/queue/src/postgres.ts:265-334 | a job stands in for another exactly if it waits, never taken, for the same type and payload to be done no later |
| JobTable.StandInServes | packages/queue/src/postgres.ts:265-334 | a stand-in raised serves the job asked for, no later and no less urgent than asked, and is itself not made less urgent |
| JobTable.InsertServes | packages/queue/src/postgres.ts:265-334 | so does a new row, which may be taken exactly once its delay is over |
| JobTable.RevivedStartOver | packages/queue/src/postgres.ts:439-473 | retried or revived jobs can be taken at once with all their attempts, and no other row changes |
| JobTable.DeletesDead | packages/queue/src/postgres.ts:475-481 | deleting a job deletes it if it is dead, and nothing otherwise |
| JobTable.PrunesLongDead | packages/queue/src/postgres.ts:483-494 | over any history, pruning deletes exactly the rows that died longer ago than it is told |
| JobTable.AttemptsAccounted | packages/queue/src/postgres.ts:647-741 | attempts are claims less effective hand-backs since insertion or revival, and at most MAX_ATTEMPTS |
| JobTable.DisplacedIsFenced | packages/queue/src/postgres.ts:704-750 | a process that no longer holds a job changes nothing by extending, completing, failing or releasing it until it claims it again |
| JobTable.LeavesOnly | packages/queue/src/postgres.ts:475-494 | a row leaves the table only by its lease-holder's completion or, dead, by deletion or pruning |
| Scheduler.LanesStarted | packages/queue/src/postgres.ts:510-522 | a pass request starts lanes up to the concurrency and leaves the others alone; only the first it starts buries, and only from idle |
| Scheduler.ArmKeepsInv | packages/queue/src/postgres.ts:796-815 | the pending timer is the earliest of the clamped times asked for since it last started over, never before the back-off |
| Scheduler.PassFailedKeepsInv | packages/queue/src/postgres.ts:565-571 | after a failed pass a timer is pending until it fires or the queue stops |
| Scheduler.ResumeKeepsInv | packages/queue/src/postgres.ts:524-563 | every stretch of a lane between two awaits keeps the counters, the timer and the lanes consistent |
| Scheduler.RejectKeepsInv | packages/queue/src/postgres.ts:524-571 | so does every rejected await |
| QueueSystem.ReachableInv | packages/queue/src/postgres.ts:439-815 | in every state of every trace the table's and every scheduler's invariant hold, the timer's discipline among them |
| QueueSystem.EndsQuietly | packages/queue/src/postgres.ts:536-556 | a lane that ends without failure or stop found nothing in a look that no request came after |
| QueueSystem.TimerOnlySooner | packages/queue/src/postgres.ts:778-815 | between requests, failures and the stop the timer only moves earlier |
| QueueWakeups.RequestIsAnswered | packages/queue/src/postgres.ts:510-562 | no lost wake-up: after a request, until something is rejected or the stop, either a lane is still taking jobs or a look that began at or after it found nothing takeable and unlocked |
| QueueWakeups.RequestIsKept | packages/queue/src/postgres.ts:510-571 | and through any failures, up to the stop: a lane is taking jobs, or such a look has been made, or a timer is pending |
| QueueWakeups.PassedOverIsDue | packages/queue/src/postgres.ts:778-794 | a row that could be taken and was left, locked as it was during the look, makes the timer due as soon as the answer what is due is heard |
| QueueWakeups.SleepsUntilDue | packages/queue/src/postgres.ts:536-562 | a process asleep since it was last asked has answered every request and has its timer set for every job it does not hold itself |
| QueueWakeups.LastRequestSettles | packages/queue/src/postgres.ts:778-808 | until then a lane is active, or a closing one is still to hear what is due |
| QueueTiming.TimedExclusion | packages/queue/src/postgres.ts:647-776 | a run younger than MAX_HOLD_MS whose ticks fire when due (or up to `late` after), whose first extension lands by the end of the claim's lease and each later one within LEASE_S less HOLD_INTERVAL_MS (and `late`) of its own tick, keeps its job to itself: no lane of any process claims it |
| QueueLeases.PunctualExcludes | packages/queue/src/postgres.ts:647-776 | whatever kept it so, while a run is in progress and the lease given so far has not run out, no lane of any process can claim its job |
| QueueLeases.ClaimBeginsRun | packages/queue/src/postgres.ts:647-702 | a claim begins such a run when no other lane of its process has the job in hand |
| QueueLeases.ReachableExclusive | packages/queue/src/postgres.ts:676-776 | while everyone is punctual, whoever may still send something about a job holds it alone or sends it for nothing |
| QueueLeases.OneRunAtATime | packages/queue/src/postgres.ts:676-776 | while everyone is punctual no job has two runs in progress, in any lanes of any processes |
| QueueTiming.HoldLapses | packages/queue/src/postgres.ts:752-776 | a handler that never returns loses its job: MAX_HOLD_MS, LEASE_S and the delay of its extensions after the handler started the lease has run out, unless someone has claimed the job before |
| QueueLimits.SharedOwnerLosesLease | packages/queue/src/postgres.ts:217-218 | a reachable state in which one lane's failure has made takeable the job another lane of the same process is punctually running |
| QueueLimits.LeaseIsSafeIffAlone | packages/queue/src/postgres.ts:704-750 | of a punctual run in progress: however the system goes on its process keeps the lease while the run is in progress and punctual, if and only if no other lane of the process may still send anything about the job |
| QueueLeases.OneLaneIsAlone | packages/queue/src/postgres.ts:510-522 | with a concurrency of one, no other lane of the process may send anything about a lane's job |
| QueueLimits.OwnLeaseIsForgotten | packages/queue/src/postgres.ts:778-794 | a reachable state in which a claim whose answer was lost is left with no timer set |
| QueueLimits.SleepCovers | packages/queue/src/postgres.ts:778-808 | a process going to sleep, no timer pending and its back-off over, sets its timer for a ready row exactly when some row it does not hold itself is ready no later |
| QueueAccounts.RowsAreHistory | packages/queue/src/postgres.ts:439-745 | the rows of any trace are what its statements make of an empty table |
| QueueAccounts.StartsBounded | packages/queue/src/postgres.ts:647-741 | since a job was last put in the table or back in it, its handler starts at most MAX_ATTEMPTS times, plus its hand-backs since and the runs that were pending then, however processes interleave or fail and whatever becomes of the row |
| QueueAccounts.StartsBoundedInAll | packages/queue/src/postgres.ts:647-741 | so a job never put back starts its handler at most MAX_ATTEMPTS times plus its hand-backs, in the table or out of it |
| JobTable.ClaimsBounded | packages/queue/src/postgres.ts:647-741 | the claims of a job since it was last put in the table or back in it are at most MAX_ATTEMPTS plus its effective hand-backs, its row there or gone |
| QueueAccounts.RowsLeaveOnly | packages/queue/src/postgres.ts:475-494 | a row leaves as a dead row deleted or pruned, or by the completion of a run, of the process that holds its lease, which at an earlier step had its handler return or was found to be of a type nobody handles |
| QueueAccounts.CompletesAfterReturn | packages/queue/src/postgres.ts:676-706 | the one step in which a lane comes to complete a run: its handler has just returned, or its type has just been found unknown |
| QueueProgress.RunEnds | packages/queue/src/postgres.ts:676-741 | after a handler's end the lane's next statement does nothing if the process has lost the lease, and otherwise deletes the row after a return, gives it back with its attempt to be taken at once after an interruption by the stop, and after any other end leaves it to be retried after the delay, or dead once its attempts are used |
| QueueProgress.HandlerSettles | packages/queue/src/postgres.ts:683-701 | a handler that returns is to be completed, one interrupted while the queue stops released, any other failed |
| QueueProgress.RejectedCompletionFails | packages/queue/src/postgres.ts:684-698 | a completion that is rejected is handled as the handler's own failure |
| QueueProgress.TimelyRunCompletes | packages/queue/src/postgres.ts:676-706 | a run on time until its completion is run has its job deleted |
| QueueProgress.ClaimedIsHandled | packages/queue/src/postgres.ts:530-549 | a claimed job comes to its handler, with a hold of MAX_HOLD_MS begun as it starts; one of a type without a handler is to be completed unhandled |
| QueueProgress.UnknownIsDeleted | packages/queue/src/postgres.ts:677-682 | and is then deleted, if the process still holds it |
| QueueProgress.HoldTicksOn | packages/queue/src/postgres.ts:752-776 | until a handler's end is told its interval ticks every HOLD_INTERVAL_MS, each tick up to MAX_HOLD_MS sends an extension, and the first past it ends the ticking |
| QueueProgress.ExtensionLandsOnce | packages/queue/src/postgres.ts:764-770 | an extension lands once or is lost; landing gives the lease LEASE_S more from then if the process still holds it |
| QueueProgress.LaneLooksOn | packages/queue/src/postgres.ts:529-551 | after burying, after a run, and after an empty look with a request come since, a lane looks again; after an empty look with none it ends; and the stop ends it |
| QueueProgress.ClosedLaneIsGone | packages/queue/src/postgres.ts:552-562 | a closing lane that has heard what is due changes nothing but the timer |
| QueueProgress.PassBuries | packages/queue/src/postgres.ts:632-645 | a process asked for a pass from idle first buries exactly the ready jobs whose lease ran out on the last attempt |
| QueueProgress.StoppedTakesNoMore | packages/queue/src/postgres.ts:503-556 | from the stop on a process begins no look and asks no more what is due |
| QueueProgress.FailureSetsTimer | packages/queue/src/postgres.ts:565-571 | a failed pass ends its lane and sets the timer DRAIN_RETRY_MS ahead, in place of any other |
| QueueProgress.BacksOff | packages/queue/src/postgres.ts:565-571 | after a failure the timer does not fire before DRAIN_RETRY_MS are over, whatever else is asked of it |
| QueueProgress.ArmIsExact | packages/queue/src/postgres.ts:796-809 | arming sets the timer to the time asked for, or the end of the back-off if later, unless it is due sooner |
| QueueProgress.FiredIsSpent | packages/queue/src/postgres.ts:796-809 | a timer that fires is spent |
| QueueProgress.LaneCanGoOn | packages/queue/src/postgres.ts:524-571 | no lane is stuck: whatever it awaits, the database can run it or it can settle |
| PostgresJobQueue.Queue.RequestPass | packages/queue/src/postgres.ts:510-522 | the loop that starts lanes does what the scheduler's step says |
| PostgresJobQueue.Queue.Arm | packages/queue/src/postgres.ts:796-809 | the fields after arming are the scheduler's, which keeps the earliest time |
| PostgresJobQueue.Queue.PassFailed | packages/queue/src/postgres.ts:565-571 | the back-off and the timer after a failure are the scheduler's |
| PostgresJobQueue.Queue.Stop | packages/queue/src/postgres.ts:503-508 | stopping leaves no timer |
| PostgresJobQueue.Queue.LaneResumes | packages/queue/src/postgres.ts:524-563 | a lane's next stretch does what the scheduler's step says, for each await and outcome |
| PostgresJobQueue.Queue.LaneRejected | packages/queue/src/postgres.ts:524-571 | likewise when what it awaits is rejected |
| PostgresJobQueue.Queue.HoldTicks | packages/queue/src/postgres.ts:752-776 | a tick sends one extension, or ends the hold past its limit |
| PostgresJobQueue.Queue.Claim | packages/queue/src/postgres.ts:647-674 | the claim takes the row the statement's meaning allows, and changes no other |
| PostgresJobQueue.Queue.Fail | packages/queue/src/postgres.ts:708-725 | a failure unleases the owner's job, to retry later or dead when its attempts are used |
| PostgresJobQueue.Queue.Release | packages/queue/src/postgres.ts:727-741 | a release hands the owner's job back with its attempt |
| PostgresJobQueue.Queue.ReviveDead | packages/queue/src/postgres.ts:451-473 | dead jobs of the type and payloads start over, and the payload of each of them is told |
| PostgresJobQueue.Queue.Enqueue | packages/queue/src/postgres.ts:265-334 | a job that one waiting stands in for raises it, else a new row is written |
| PostgresJobQueue.Coalesced.Request | packages/queue/src/postgres.ts:198-204 | a request while one is being sent is not lost: a send begins after it |
| PostgresJobQueue.Coalesced.Settled | packages/queue/src/postgres.ts:184-196 | a send that settles is followed by another exactly if a request came since it began |
| LakeTables.KeyedLoadExact | packages/lake/src/keyed-load.ts:74-100 | the two MERGE statements leave exactly the incoming rows if and only if no two rows of the table share the key of one of them |
| LakeTables.KeyedLoadReplaces | packages/lake/src/keyed-load.ts:74-100 | under a key of both ends the keyed load is emptying the table and inserting |
| LakeTables.UpdatedIsSource | packages/lake/src/keyed-load.ts:45-84 | a matched row whose values differ by IS DISTINCT FROM becomes the incoming row, and one whose values do not is it already |
| LakeTables.FaultFree | packages/lake/src/ingest.ts:87-113 | there is no key fault exactly when the key's columns are there and it is unique and non-null on the rows |
| LakeTables.FaultTells | packages/lake/src/ingest.ts:87-113 | a missing key column is told before a null in the key, and that before two rows with one key |
| LakeIngest.SharedIsBoth | packages/shared/src/column-settings.ts:77-98 | two versions share a key exactly when both have the same list, and the question is symmetric |
| LakeIngest.RefillReplaces | packages/lake/src/ingest.ts:126-157 | both ways of filling a table leave the incoming bag of rows |
| LakeIngest.KeyedRefillTouches | packages/lake/src/ingest.ts:126-157 | a keyed refill writes exactly as many rows as the keyed diff shows, where the other deletes and inserts every row |
| LakeIngest.Table.RunAll | packages/lake/src/ingest.ts:140-157 | the statements run in one transaction: all of them exactly if none that is reached fails, else nothing changes |
| LakeIngest.Table.LoadContents | packages/lake/src/ingest.ts:126-157 | a load sends one statement where the columns differ and else the refill for its key in a transaction, and succeeds exactly if none of these fails; then the version's columns and rows stand, else nothing changes |
| LakeIngest.Table.Ingest | packages/lake/src/ingest.ts:36-80 | an ingest succeeds exactly if none of its statements fails; it tells the snapshot that reads the version back, and keeps every earlier snapshot |
| LakeIngest.History.LoadVersion | packages/api/src/services/lake/lake-catalog.ts:213-232 | a version is refused exactly for its key fault, which is told, and otherwise loaded exactly if no statement of it fails: under a key only if what the table holds shares it, and recorded with its snapshot |
| LakeIngest.History.LoadVersions | packages/api/src/services/lake/lake-rebuild.ts:264-305 | through any sequence of versions, columns, stored keys and failures: a version with key columns is refused with just their fault and else recorded under them, one with none is never refused and recorded under no key, and every recorded snapshot goes on reading back its own version |
| LakeDiff.GroupsAreNets | packages/lake/src/diff.ts:101-130 | the groups of the two versions stacked with +1 and -1 are the rows one holds more often than the other, each with the difference as its sum |
| LakeDiff.TotalsAreDifferences | packages/lake/src/diff.ts:101-130 | the window sums of the groups' absolute nets, a side at a time, are the sizes of the two bag differences |
| LakeDiff.KeylessDiffConserves | packages/lake/src/diff.ts:101-130 | the older version with every group's net applied is the newer; swapping the ends swaps the counts; both are zero exactly for equal ends |
| LakeDiff.KindsCounted | packages/lake/src/diff.ts:171-235 | the outer join counts as added, removed and changed the rows the load inserts, deletes and updates |
| LakeDiff.ChangedBothWays | packages/lake/src/diff.ts:171-235 | a changed pair is one row more on either side of the keyless diff |
| LakeDiff.SecondDeletes | packages/lake/src/keyed-load.ts:74-100 | what the second MERGE deletes from the table the first has written is exactly what had no match before either |
| LakeDiff.DiffsAndLoadAgree | packages/lake/src/diff.ts:101-235 | keyless added is keyed added and changed, keyless removed is keyed removed and changed, and the first MERGE inserts and updates, and the second deletes from what the first left, as many rows of each |
| LakeDiff.RowsAgree | packages/lake/src/keyed-load.ts:45-91 | row for row: the join shows a pair as added, removed or changed exactly if the first MERGE inserts it, the second deletes it from what the first left, or the first updates it to the row shown |
| LakeSamples.MarkerName | packages/lake/src/diff.ts:72-79 | the loop ends with the shortest extension of the base that no column begins with |
| LakeSamples.MarkersAreFresh | packages/lake/src/diff.ts:159-170 | the four names are fresh to the columns they were made for |
| LakeSamples.Split | packages/lake/src/diff.ts:238-291 | one sampled row taken apart: its data, and the old values of the columns flagged as moved |
| LakeSamples.SplitUndoesEncoding | packages/lake/src/diff.ts:171-291 | what the query encodes of a pair is what the split gives back: the side read and exactly the moved cells' old values |
| LakeSamples.SplitGivesSides | packages/lake/src/diff.ts:171-291 | of an added row the split gives the newer row and of a removed one the older; of a changed row the newer, and with the cells kept beside it the older again, those cells being the ones that differ |
| LakeSamples.TrimKeeps | packages/lake/src/diff.ts:27-52 | only text over 512 characters is trimmed, to its first 512 and a mark |
| LakeSamples.OverlayGivesOlder | packages/lake/src/diff.ts:171-291 | the old values laid over the newer row give the older one, up to the trimming of wide cells |
| LakeSamples.SplitKeyedDiffRows | packages/lake/src/diff.ts:238-291 | the fold keeps rows by kind in order, each kind's total and its samples |
| LakeSamples.KeyedTotalsRecovered | packages/lake/src/diff.ts:238-291 | with at least one sampled row of each kind there is, the totals read back are exact |
| LakeSamples.SplitDiffRows | packages/lake/src/diff.ts:337-360 | the keyless fold keeps rows by side, without its bookkeeping columns |
| LakeSamples.KeylessTotalsRecovered | packages/lake/src/diff.ts:337-360 | the keyless totals read back are exact, whatever number of rows was sampled |
| WasmMemory.ReadUndoesWrite | spike/adr-065/sandbox-boot.js:32-51 | reading undoes writing for every number and any following bytes |
| WasmMemory.Uleb | spike/adr-065/sandbox-boot.js:32-41 | the loop reads the number and the length the format gives |
| WasmMemory.ToUleb | spike/adr-065/sandbox-boot.js:42-51 | the loop writes the shortest form |
| WasmMemory.PrintUndoesParse | spike/adr-065/sandbox-boot.js:52-83 | sections as walked print back to the bytes they came from |
| WasmMemory.ParseUndoesPrint | spike/adr-065/sandbox-boot.js:52-83 | sections that say their own size parse back from their bytes |
| WasmMemory.CappingPreserves | spike/adr-065/sandbox-boot.js:52-83 | the patched module has the same preamble and the same sections in order, byte for byte, but for the memories' maxima |
| WasmMemory.CapAllMeans | spike/adr-065/sandbox-boot.js:60-74 | every memory keeps its minimum under the smaller of its declared maximum and the ceiling; refused exactly when a minimum is above that |
| WasmMemory.CappingRefuses | spike/adr-065/sandbox-boot.js:52-84 | a well-formed module is refused exactly when it has no memory section or a minimum does not fit |
| WasmMemory.CappingComposes | spike/adr-065/sandbox-boot.js:42-85 | two ceilings in turn give byte for byte what the smaller gives, and are refused exactly when it is |
| WasmMemory.ReadEntry | spike/adr-065/sandbox-boot.js:61-72 | one entry of the loop: unexpected flags, then the limits under the ceiling |
| WasmMemory.CapBody | spike/adr-065/sandbox-boot.js:59-74 | the new contents of the memory section, or the first entry's error |
| WasmMemory.CapMemory | spike/adr-065/sandbox-boot.js:52-85 | the loop over the bytes, patching included, computes the capped module or the error it is refused with, and leaves the given bytes alone |
| CsvRecords.WalkIsPass | packages/shared/src/csv-records.ts:69-99 | for any text and dialect the line-by-line walk equals a single pass over the whole text |
| CsvRecords.CsvRecordLabels | packages/shared/src/csv-records.ts:69-99 | the loops compute those labels, with no quote character too |
| CsvRecords.WalkLine | packages/shared/src/csv-records.ts:82-96 | the look-ahead over one line ends inside a quoted field exactly when the automaton without it does |
| CsvRecords.UnquotedNumbersAll | packages/shared/src/csv-records.ts:56-59 | where every quote stands further on in an unquoted field, as in 5"6, nothing is continued: every line is numbered in turn |
| CsvRecords.OpenedGoesOn | packages/shared/src/csv-records.ts:77-96 | a quote at the start of a field, which nothing on the line closes, blanks the next line |
| CsvRecords.PhysicalIff | packages/shared/src/csv-records.ts:60-99 | a dialect numbers every text by its physical lines exactly when it has no quote that could open a field |
| CsvRecords.WithoutDialect | packages/shared/src/csv-records.ts:21-38 | a schema without a stored dialect gives physical numbers exactly when it dropped no line, and else those of RFC 4180 |
| CsvRecords.StoredDialect | packages/shared/src/csv-records.ts:21-43 | a stored dialect is counted under, and a quote in it that is no single character is none |
| CsvRecords.PrintThenNumber | packages/shared/src/csv-records.ts:43-69 | for any records printed as RFC 4180 has it, or with an escape that is not the quote, stray quotes inside unquoted fields included, label k lies on the first physical line of record k and every other line is blank |
| CsvRecords.SplitUndoesJoin | apps/web/src/components/preview/resource-preview.tsx:499-503 | the lines of a text are any lines without a line break in them |
| Utf8.DecodeUndoesEncode | packages/shared/src/encoding-node.ts:141-146 | decoding undoes encoding for every text |
| Utf8.DecodeCut | packages/shared/src/encoding-node.ts:158-163 | bytes cut anywhere decode to the whole characters and one replacement for the one cut through |
| Utf8.StrayByte | packages/shared/src/encoding-node.ts:158-163 | a byte that begins no character decodes to one replacement, and decoding goes on behind it |
| Utf8.TruncationKeeps | packages/shared/src/encoding-node.ts:153-163 | the truncated text is a whole-character prefix within the limit, and loses at most three bytes below it |
| Utf8.OwnReplacementIsLost | packages/shared/src/encoding-node.ts:153-163 | a text that loses a replacement character of its own which the limit leaves room for |
| ContentChunks.ContentChunkCutter.PlaceLine | packages/shared/src/content-chunks.ts:38-55 | the cutter's fields and answer are the placing function's |
| ContentChunks.TakeCounts | packages/shared/src/content-chunks.ts:38-55 | the counter holds the open chunk's size and the line break before its first line, if that line was to join the chunk before; a line breaks exactly when this and the line's own size pass the limit |
| ContentChunks.ChunksOfLines | packages/shared/src/content-chunks.ts:32-56 | the chunks hold the lines in order, each within the limit, only an over-long line cut and then alone; a line begins a new chunk exactly when it would have taken the one before past the limit as the counter has it |
| ContentChunks.ChunksRejoined | packages/shared/src/content-chunks.ts:4-10 | with no over-long line the chunks joined again are the text |
| ContentChunks.LinesJoin | packages/shared/src/content-chunks.ts:4-10 | the lines of a block hold no line break and joined are the block |
| ContentChunks.IndexedLinesAre | packages/shared/src/content-chunks.ts:16-19 | a block without text adds no line, any other the lines it is made of |
| ContentChunks.ChunkWriter.WriteChunks | apps/worker/src/pipeline/steps/index-content.ts:368-419 | the worker's loop writes exactly those chunks and counts exactly their bytes and the text's |
| ContentChunks.SizesTold | apps/worker/src/pipeline/steps/index-content.ts:368-419 | of lines that fit, the bytes indexed and the bytes of the text differ by the line breaks between the chunks |
| ContentChunks.TextWindow.Append | packages/api/src/services/search/passage-text.ts:87-111 | the search's spans are, chunk for chunk, where the worker's chunks stand in the whole text, whatever of it has been let go |
| ContentChunks.TextWindow.DropBefore | packages/api/src/services/search/passage-text.ts:137-144 | letting go of the text's beginning moves no offset |
| ContentChunks.TextWindow.FindFragment | packages/api/src/services/search/passage-text.ts:199-213 | a fragment is found exactly if what the worker wrote of its chunk holds it, and where it first does |
| ContentChunks.FirstWithin | packages/api/src/services/search/passage-text.ts:203-205 | searching the text from the chunk's start and checking the end is searching the chunk alone |
| SpillRegistry.Spills.CloseKey | packages/lake/src/spill.ts:115-119 | a close lets go and begins the removal exactly when it was the last of a retired key |
| SpillRegistry.Spills.RetireKey | packages/lake/src/spill.ts:120-130 | a retired key's promise may settle at once exactly if nothing was held, and else only once the removal has run |
| SpillRegistry.RetiringWaits | packages/lake/src/spill.ts:120-130 | what is retired without being held need not be waited for, and what is held must be until its removal has run |
| LakeInstances.StepKeeps | packages/lake/src/connection.ts:141-285 | every step keeps what is known of each instance, its registry entry, its sessions and its place in the cache |
| LakeInstances.DirectoriesOutliveSessions | packages/lake/src/spill.ts:93-133 | in every run a removal has begun exactly when the instance is closed and nothing counted holds it; no session is then using it; none begins twice; and retiring settles only once the removal has run |
| LakeInstances.StepAbandons | packages/lake/src/connection.ts:198-205 | an instance comes to be out of the cache and never retired exactly when a failed setup's clean-up evicts it |
| LakeInstances.NoneAbandoned | packages/lake/src/connection.ts:196-285 | where no clean-up evicts another's instance none is abandoned |
| LakeInstances.AbandonedForGood | packages/lake/src/connection.ts:196-285 | an abandoned instance stays so, and its directory is never removed |
| LakeInstances.SetupFailureAbandons | packages/lake/src/connection.ts:198-205 | a run that abandons one |
| LakeService.CallerIsServed | packages/lake/src/connection.ts:196-207 | a caller waits for the instance cached under its key, and otherwise for a new one, which the next caller waits for too |
| LakeService.LostIsReplaced | packages/lake/src/connection.ts:209-217 | a session that finds its instance lost takes it out of the cache if it is still there, to be retired once, the next caller has a new one prepared, and no other key or instance is touched |
| LakeService.OutForGood | packages/lake/src/connection.ts:196-285 | in any run, an instance once out of the cache is never given to a caller again |
| LakeService.FailedIsReplaced | packages/lake/src/connection.ts:198-205 | after the clean-up of a failed setup the next caller has a new instance prepared |
| LakeService.ClosedIsOver | packages/lake/src/connection.ts:243-250 | closing a session ends its hold, once |
| LakeService.WaitingEnds | packages/lake/src/connection.ts:207-229 | a session whose connection opens is connected, one whose instance never came is over, and nothing else changes |
| LakeService.RemovalSettles | packages/lake/src/spill.ts:93-133 | once a removal has run, what waited for it can settle |
| LakeService.ShutdownEmpties | packages/lake/src/connection.ts:257-261 | a shutdown empties the cache, and all that was in it is to be retired |
| LakeService.RetiringCloses | packages/lake/src/connection.ts:77-80 | retiring an instance that was ever ready closes it |
| LakeService.IdleIsReleased | packages/lake/src/connection.ts:275-285 | a ready, cached instance without a session connected or connecting is closed and its directory's removal begun at once; any other is left alone |
| LakeService.DrainedLeavesNothing | packages/lake/src/spill.ts:93-133 | once the cache is empty, every retirement has run and no session is left, the removal of every ready instance's directory has begun, unless a failed setup's clean-up evicted one |
| LakeService.NothingIsStuck | packages/lake/src/connection.ts:141-285 | whatever is under way can go on, and end either way |
| LakeInstances.Connections.SetupFailed | packages/lake/src/connection.ts:141-187 | a setup that fails retires what it had opened, whose directory then goes at once |
| LakeInstances.Connections.DropFailed | packages/lake/src/connection.ts:198-205 | the clean-up deletes the failed setup's key, whatever is under it by then |
| LakeInstances.Connections.HaveInstance | packages/lake/src/connection.ts:207-229 | the session is counted in the same step as it sets out to connect |
| LakeInstances.Connections.ConnectionRefused | packages/lake/src/connection.ts:209-233 | a refused connection gives its count back, and a lost instance leaves the cache if it is still the one in it |
| LakeInstances.Connections.CloseOpened | packages/lake/src/connection.ts:243-250 | closing twice counts once |
| LakeInstances.Connections.CloseLakeInstances | packages/lake/src/connection.ts:257-261 | everything cached is to be retired and the cache is empty |
| LakeInstances.Connections.ReleaseIfIdle | packages/lake/src/connection.ts:275-285 | an instance is released exactly when it is ready, still cached and without a counted session, and said to be exactly when its key has left the cache |
| DeployBudget.DeployWaves | infra/lib/config/sites.ts:94-100 | the loop cuts the waves |
| DeployBudget.WavesMean | infra/lib/config/sites.ts:94-100 | the waves are the sites in order, one canary first, then at most the concurrency each, every site in its own wave |
| DeployBudget.UnorderedIsOneWave | infra/lib/stacks/kukan-stage.ts:100-104 | two sites are unordered by the chain of dependencies exactly when they are in one wave |
| DeployBudget.RollingIsOneWave | infra/lib/stacks/kukan-stage.ts:95-104 | at every moment of every deploy the sites that roll are of one wave, and no more than the largest |
| DeployBudget.RollingSitesAre | infra/lib/config/sites.ts:330-331 | as many sites roll at once as are told to, of those behind the canary |
| DeployBudget.DearestBound | infra/lib/config/sites.ts:332-337 | any choice of that many sites costs no more than the dearest ones by the sorted prefix |
| DeployBudget.DearestIsReached | infra/lib/config/sites.ts:332-337 | and some choice of no more than that many costs just as much |
| DeployBudget.SortSorts | infra/lib/config/sites.ts:332-334 | the costs sorted are the same costs in descending order |
| DeployBudget.MomentIsExact | infra/lib/config/sites.ts:305-331 | what the sites of a deploy may have open at a moment, old tasks under the old settings and new ones under the new, reaches the sum of their costs and never passes it |
| DeployBudget.UnchangedCosts | infra/lib/config/sites.ts:305-334 | a site whose settings stay costs its pools at their maximum of tasks, and while it rolls those of the minimum of tasks besides |
| DeployBudget.JudgedByHeadroom | infra/lib/config/sites.ts:404-421 | rejected just when the worst case passes the maximum, and without a warning just when it leaves three tenths of it |
| DeployBudget.DeployStaysWithin | infra/lib/stacks/kukan-stage.ts:95-104 | a deploy from one configuration to the next stays within a limit exactly when each wave does with the earlier sites under their new settings, the later under their old ones and its own under whichever costs more |
| DeployBudget.NeverExceeds | infra/lib/config/sites.ts:305-338 | where no site shrinks, whatever the tasks of every site have open, at every moment of every deploy the connections are within the worst case |
| DeployBudget.AcceptedNeverExceeds | infra/lib/config/sites.ts:404-421 | a deploy that is not rejected never exceeds the database's maximum exactly when the peaks of its waves do not, which holds wherever no site shrinks |
| DeployBudget.UnchangedStaysWithin | infra/lib/config/sites.ts:404-421 | in particular wherever every site is new or keeps its settings |
| DeployBudget.LoweringPoolsExceeds | infra/lib/config/sites.ts:357-364 | two configurations in turn, both accepted for a database of 823 connections, between which 1200 may be open |
| DeployBudget.FittingConcurrency | infra/lib/config/sites.ts:342-346 | the loop finds the greatest number of sites that may roll within the limit, or 0 |
| DeployBudget.AdviceFits | infra/lib/config/sites.ts:357-364 | deploying that many at a time is within the limit |
| ConnectionLimits.CapacityRises | infra/lib/config/scale.ts:84-128 | the interpolated estimate never falls with the capacity and never passes the ceiling |
| ConnectionLimits.EstimateIs | infra/lib/config/scale.ts:84-128 | at any capacity the estimate lies on the line between the two documented maxima around it, cut to a whole number |
| ConnectionLimits.AdviceSuffices | infra/lib/config/sites.ts:373-403 | the settings the remedy names are enough to reach the required connections, and each one it names is needed |
| ConfigMerge.DeepMerge | infra/lib/config/scale.ts:198-207 | the loop over the keys computes the merge, explicit undefined included |
| ConfigMerge.MergeGroups | infra/lib/config/scale.ts:195-207 | merging groups either way exactly where paths from an object to something else and back bring nothing from the first |
| ConfigMerge.NeverReturnsGroups | infra/lib/config/scale.ts:195-207 | in particular wherever no path goes there and back |
| ConfigMerge.ReturnsSomewhere | infra/lib/config/scale.ts:198-207 | that is, where no path of keys that all three trees have leads from an object to something else and back |
| ConfigMerge.CoveredAddsNothing | infra/lib/config/scale.ts:198-207 | merging onto a tree changes the later one nowhere exactly when it names everything already |
| ConfigMerge.UnsetSectionMatters | infra/lib/config/scale.ts:195-197 | an unset section that a site sets in part makes the groupings differ |
| ConfigMerge.DbIsResolved | infra/lib/config/scale.ts:210-236 | a resolved database section has its engine, the capacities or the class that engine wants, and all that was given; resolving again changes nothing |
| ConfigMerge.BudgetCountsDeployed | infra/lib/config/sites.ts:323-323 | the sizes the budget counts for a site are those it is deployed with, exactly when the grouping does not matter |

## Left out

- The queue: waiting-job metrics, logging, HTTP wake-ups, listing and counting of jobs, batching in `enqueueMany`, and the wake-up after a transaction's commit; a write and the request that follows it are separate steps here, so nothing is promised of a signal that is never sent.
- The queue: the database and every process read one clock, and every statement and every stretch of code between two awaits is atomic; PostgreSQL's own isolation is not modelled beyond the rows a claim may skip.
- The queue: jsonb containment is a set of payloads, and an id is given out once.
- QueueTiming.TimedExclusion: ticks are due at multiples of HOLD_INTERVAL_MS from the hold's start, and fire up to `late` after that; what a timer's own drift adds from tick to tick is within `late`.
- QueueWakeups.RequestIsAnswered: the look may pass over any rows, locked by whatever statement of whatever process; such a row is the timer's, by `PassedOverIsDue`.
- QueueWakeups.RequestIsKept: that a pending timer fires is not promised, only that it is pending.
- PostgresJobQueue.Coalesced.Settled: what is sent never throws, as the caller catches it.
- The lake: DuckDB and DuckLake themselves and the SQL text; each statement is modelled by its meaning, on bags of rows. A MERGE with several matching source rows is not given a meaning beyond the first, since a key fault excludes it.
- The lake: identifiers are compared exactly, though DuckDB ignores their case; a column named `__proto__`, which a JavaScript object cannot hold as data, is not modelled; `diffSchemas` and the purge of versions are not modelled.
- LakeIngest.Table.RunAll: a commit that fails is taken not to have happened, and a rollback that fails is passed over as the code does.
- WasmMemory.Uleb: numbers are unbounded, where JavaScript is exact to 2^53; reading requires that the number ends within the bytes, as the code does not stop otherwise.
- CsvRecords.CsvRecordLabels: labels are numbers or none rather than their decimal text or the empty string.
- Utf8.TruncationKeeps: texts are sequences of Unicode scalar values; a lone surrogate, which a decoded text never holds, is not modelled.
- ContentChunks.TextWindow.Append: positions count scalar values rather than UTF-16 units; blocks, words looked for without an index, and the widening of passages are not modelled.
- The spill directories: creating and removing them, loading extensions, the S3 secret and the statements of a session; that connecting to a closed instance fails is taken from DuckDB.
- DeployBudget.DeployStaysWithin: sizes are natural numbers, no service runs more tasks than it scales to, and a deploy starts no more than the minimum of new tasks, as the pinned desired count has it; a stack that fails stays rolling; a site taken out of the configuration is not counted, and the deploy begins with every site settled under its old settings.
- DeployBudget.FittingConcurrency: the sum of the k dearest is computed by the specification's own sort.
- ConnectionLimits.CapacityRises: real arithmetic instead of floating point, and Aurora only; the estimate by RDS instance class is a table lookup and is not modelled.
- ConfigMerge.BudgetCountsDeployed: of the database section only the engine, the capacities and the instance class are resolved, the check of the class's shape is left out, and an unset database section reads as an empty one where the code would throw.
- Site validation other than the budget, the derived listener priorities, and every message's wording.
