# Aquifer's dispatch engine, in Dafny

Aquifer is a durable multi-tenant job queue: it accepts jobs idempotently, stores them, paces them to each
target API, shares a target's budget fairly between tenants, pages what does not fit in memory from disk, and
spreads tenants over a cluster. This project models that engine and proves what it promises. Nothing in it is
executed; the verifier checks every statement for all inputs, all runs and all interleavings.

Each part has two layers. A **state machine on values** gives every lock-protected call, store call, script or
run-loop case one step, an invariant, a lemma per step and theorems over runs. Where the source updates
fields in place or loops, a **class** has the same fields and loops, and its methods are proved to perform
exactly those steps (`View() == Step(old(View()))`).

What the steps amount to is then stated in plain terms, without the definitions the steps are made of: the times
and fields of a job, the users and capacity of an instance, the SQL statements of the other store. These are the
modules `PagedQueueLaws`, `PagedQueueOrder`, `PebbleTable`, `PoolLaws`, `AssignmentLaws` and `SchedulerLaws`, and
the lemmas named `...Exactly`, `...Is` and `...Reads` in the others. Their times are written out in milliseconds or
nanoseconds.

| part | files |
|---|---|
| paged queue | `Jobs`, `Lex`, `Pages`, `PagedQueue*`, `AccountQueue` |
| Pebble store | `StoreKeys`, `PebbleStore`, `PebbleProofs`, `PebblePages`, `PebbleCleanup`, `PebbleRuns`, `PebbleLimits`, `PebbleTable`, `Pebble` |
| pool | `PoolHeap`, `Pool`, `PoolFairness`, `PoolEviction`, `PoolLaws` |
| shared pace | `SharedPace` |
| fair admission | `Sums`, `FairAdmission`, `Worker` |
| idempotent enqueue | `Intake`, `Aquifer` |
| cluster | `Assignments`, `AssignmentLaws`, `Valkey`, `Rendezvous`, `ScopeRelease`, `Router` |
| WebSocket scheduler | `Scheduler`, `SchedulerLaws`, `SchedulerLimits`, `WebSocketQueue` |
| inbound rate | `InboundRate` |

`Basics` holds what they share. `dafny verify dfyconfig.toml` checks everything.

## Hypotheses

Time is an integer and never goes backwards; for the bypass bound it moves between calls. Rates, weights and
positions are reals; a draw is any real, jitter any value in its range, a rendezvous score any function.

- Paged queue: pending rows are stored as `queued`, change only through their queue, and are never older than
  the store's clock; the clock is past its first day; a fresh hand-off reaches the run loop within
  the five-minute recent-page window; while jobs are on disk a sweep runs at least once in the 15-minute
  grace; a job handed off while its key is still being paged was created at or after the source's cutoff.
  `PagedQueueLimits` shows that the stored status, the window and the sweep are needed, and exactly how far.
- Store: error-free runs from an empty store; queue keys are not empty and have no NUL; times are
  non-negative and below 2^64; a final status is final, and a retry is recorded on a queued record.
- Cluster store: time-to-live positive, no instance named like another's sorted-set key.
- Worker: the counters are proved for every interleaving. For the ceiling, admitted reservations and budget changes
  exclude each other, as the worker's lock makes them.
- WebSocket scheduler: `Wait` returns once per admission, as each return makes its own release function.

## What turned out not to hold

Each comes with a run that ends in the failure and the exact condition under which the code keeps its promise.

- A row an older version stored as `in_flight` is lost by its own recovered hand-off while the recent-page
  window is open (`LegacyInFlightIsLost`; `LegacyExample` from recovery).
- A hand-off of a finished job that arrives after that window, or after its row is gone, runs the job again
  (`LateHandoffRunsAgain`; `LateHandoffExample` from recovery).
- A row that disappears while it waits on disk, declined there by its hand-off, leaks its count
  (`VanishedRowLeaksItsCount`; `VanishedExample` from recovery).
- `RecordRetry` on anything but a queued record leaves the running counts wrong (`RetryKeepsCountsIff`;
  `RetryBreaksCounts` from an empty store). Putting a record back to pending without its index entry hides it from
  pages (`RevivedWithoutEntry`; `RevivedExample`). Under the empty key the index misses the records the SQL
  query finds (`EmptyKeyPage`; `UnkeyedExample`).
- A member's weight going up can leave it further ahead than one of its new steps (`HeavierMayBeAhead`;
  `HeavierExample` from an empty pool).
- The slots of the shared pace in a window are at most window / interval + 2 if and only if the first interval of
  the window is the least in force (`WindowHoldsIff`). A rate that rises after it breaks the bound; at one
  instant rates up to a billion a second can give 32 slots, and no more (`RisingRateBurst`, `AtMost32AtOnce`).
- A panic inside `Dispatch` gives the key's claim back but keeps the row, so the next caller is told it is a
  duplicate of a job never accepted (`OnlyDispatchPanicBreaks`, `PanickedDispatchMisleads`).
- An admission that is both cancelled and taken gives its slot back twice, in either order: `Cancel` after `Wait`
  has returned, or `Wait` returning on the closed channel of one already cancelled (`OnlyMisuseBreaks`,
  `LateCancelFreesTwice`, `CancelThenWaitFreesTwice`; `BothOrdersFreeTwice` from a new scheduler). The relay
  does neither.
- `newInboundRateController` starts in range exactly for a benchmark of at least 0.1 and a start of at most
  1000 percent (`ValidStart`).

Where a comment and the code differ, the model follows the code: internal/dispatch/pool.go:21-26 says a
member's reputation must stay at or below the floor for the whole window, but a heartbeat can lift it above
without stopping the timer; what holds is `EvictedOnlyAfterSustainedFailure`.

## Model

| member | source | states |
|---|---|---|
| Jobs.CursorOrder | internal/jobs/job.go:326-341 | the cursor at a job covers exactly the jobs not after it in (CreatedAt, ID) order, and a cursor moved to a job it did not cover covers all it covered before |
| Jobs.BeforeIsOrder | internal/jobs/job.go:326-341 | page order is a strict order, total on jobs with different IDs |
| Jobs.RowOutlivesSweep | internal/jobs/job.go:343-383 | a pending row outlives its job's deadline by the grace period, so a row a sweep leaves alone cannot be deleted for another grace period |
| Pages.PageIsPage | internal/storage/sqlite.go:310-334 | a page is the first `limit` unexpired pending rows of its key after the cursor and before the bound, in order, and nothing before its end is missing |
| Pages.OnlyPageIsPage | internal/storage/sqlite.go:310-334 | that description has exactly one answer, so it specifies the query fully |
| Pages.ListingIsPageThenRest | internal/core/runtime.go:310-324 | a whole listing is its first page followed by the listing after the page's last job, and a short page is all of it |
| Pages.PageAll | internal/core/runtime.go:310-324 | reading pages until a short one visits every matching job exactly once, in order, for every page size |
| PagedQueueHandoffs.ReserveKeeps | internal/dispatch/account_queue.go:175-182 | reserving a job keeps the whole invariant: nothing lost, one copy, exact backlog, sound deadline cache |
| PagedQueueHandoffs.SetKeyKeeps | internal/dispatch/account_queue.go:296-297 | so does storing the queue's key, after which a page may return the job before its hand-off |
| PagedQueueHandoffs.SendKeeps | internal/dispatch/account_queue.go:298-300 | so does putting the hand-off in the channel |
| PagedQueueHandoffs.ReceiveDecides | internal/dispatch/paged_recovery.go:132-161 | a hand-off is taken only if its job is owed and not held, and one declined is held, still ahead on disk with a live row, or finished |
| PagedQueueHandoffs.ReceiveKeeps | internal/dispatch/account_queue.go:524-535 | receiving keeps the invariant whether it accepts or declines |
| PagedQueuePaging.AttachKeeps | internal/dispatch/paged_recovery.go:71-82 | attaching a source with a count for every unowed row past its cursor keeps the invariant |
| PagedQueuePaging.TakeSpillsKeeps | internal/dispatch/paged_recovery.go:85-91 | so does taking attached sources into the run loop |
| PagedQueuePaging.CountedWhenUnowed | internal/dispatch/paged_recovery.go:49-60 | `counts` is right: a row nobody owes always has a reserved count left, and a declined hand-off never uses one |
| PagedQueuePaging.LoadOneKeeps | internal/dispatch/paged_recovery.go:182-198 | loading the next row of a source keeps the invariant, whether it is already held, counted or declined before |
| PagedQueuePaging.LoadAllKeeps | internal/dispatch/paged_recovery.go:163-211 | loading a page keeps the invariant, and after a short page nothing lies past the cursor |
| PagedQueuePaging.FinishKeeps | internal/dispatch/paged_recovery.go:213-221 | removing a dry source and giving back its unused counts keeps the invariant |
| PagedQueuePaging.LoadPageKeeps | internal/dispatch/paged_recovery.go:163-211 | one pass of refill keeps the invariant |
| PagedQueuePaging.RemovedOnlyWhenDry | internal/dispatch/paged_recovery.go:163-221 | refill removes a source only when no live row lies past its cursor |
| PagedQueueSweeps.SweptIsNotOutstanding | internal/dispatch/paged_recovery.go:230-268 | a row old enough to be swept has no hand-off on its way |
| PagedQueueSweeps.SweepOneKeeps | internal/dispatch/paged_recovery.go:230-268 | failing an expired row on disk keeps the invariant: it gives back its own count or one of the source's, never both |
| PagedQueueSweeps.SweepAllKeeps | internal/dispatch/paged_recovery.go:230-268 | so does sweeping any list of rows of a source, after which every expired one is over |
| PagedQueueSweeps.SweptRowsLast | internal/dispatch/paged_recovery.go:230-268 | a row still owed on disk after a sweep cannot be cleaned up before the next is due |
| PagedQueueSweeps.SweepKeeps | internal/dispatch/paged_recovery.go:230-268 | a whole sweep keeps the invariant |
| PagedQueueAttempts.DispatchKeeps | internal/dispatch/account_queue.go:475-478 | starting an attempt keeps the invariant and the maximum in flight |
| PagedQueueAttempts.AttemptEndsKeeps | internal/dispatch/account_queue.go:737-860 | so does an attempt's last write, completed or failed for good |
| PagedQueueAttempts.AttemptRetriesKeeps | internal/dispatch/account_queue.go:737-860 | so does recording a retry |
| PagedQueueAttempts.DoneKeeps | internal/dispatch/account_queue.go:536-550 | so does reading an attempt's report: the job waits again, or leaves memory with its one count |
| PagedQueueAttempts.RetryDueKeeps | internal/dispatch/account_queue.go:621-637 | so does putting due retries back in the queue, deadlines tracked |
| PagedQueueAttempts.DropExpiredJobsKeeps | internal/dispatch/account_queue.go:706-735 | so does failing expired queued jobs |
| PagedQueueAttempts.DropExpiredWaitingKeeps | internal/dispatch/account_queue.go:677-697 | so does failing expired waiting jobs |
| PagedQueueAttempts.FailDeadTargetKeeps | internal/dispatch/dead_target.go:81-124 | so does failing the old jobs of a dead target |
| PagedQueueFrames.TickKeeps | internal/dispatch/paged_recovery.go:33-38 | time passing keeps it, within the hand-off window and the sweep's grace |
| PagedQueueFrames.PutRowKeeps | internal/storage/pebble.go:332-373 | so do other jobs' rows appearing or changing |
| PagedQueueFrames.DropRowKeeps | internal/storage/pebble.go:915-979 | so does cleanup deleting an expired row |
| PagedQueueRecovery.RecoverStarts | internal/core/runtime.go:274-302 | handing over the first page and attaching the rest starts the queue in the invariant, for every store it may find |
| PagedQueueRuns.StepKeeps | internal/dispatch/account_queue.go:409-649 | every step the queue or its surroundings can take keeps the invariant |
| PagedQueueRuns.RunKeeps | internal/dispatch/account_queue.go:409-649 | so does every run |
| PagedQueueRuns.OwedIsOwes | internal/dispatch/paged_recovery.go:43-56 | the jobs the counter stands for one by one are exactly those held, handed off and unfinished, or declined and waiting on disk |
| PagedQueueRuns.NoJobIsLost | internal/dispatch/paged_recovery.go:148-221 | in every reachable state, each live pending row under the queue's key is held, on its way, or past a cursor of that key |
| PagedQueueRuns.BacklogStaysExact | internal/dispatch/paged_recovery.go:43-48 | in every reachable state the counter is the jobs owed plus the sources' unused counts: never negative, and zero exactly when neither is left |
| PagedQueueRuns.OneCopyInMemory | internal/dispatch/paged_recovery.go:119-130 | in every reachable state `present` is the IDs queued, waiting and in flight, all distinct, and no more than the maximum are in flight |
| PagedQueueRuns.CacheRefinesScan | internal/dispatch/account_queue.go:700-735 | dropping expired jobs with the deadline cache does what scanning the whole queue would, and leaves no expired job |
| PagedQueueRuns.DropShortensQueue | internal/dispatch/account_queue.go:428-432 | the dispatch loop's drop-and-continue path always shortens the queue |
| PagedQueueLaws.DropLeavesTheLive | internal/dispatch/account_queue.go:706-735 | after dropping, the jobs left are exactly those before their execute-before time, or less than a day old if they have none, in order; the others' rows are failed and kept two hours, one count each given back |
| PagedQueueLaws.DropWaitingLeavesTheLive | internal/dispatch/account_queue.go:677-697 | the same for jobs waiting to be retried |
| PagedQueueLaws.DeadTargetFails | internal/dispatch/dead_target.go:81-124 | a dead target fails exactly the held jobs created by the cutoff |
| PagedQueueLaws.SweepOneFails | internal/dispatch/paged_recovery.go:244-262 | a swept row is failed exactly if nobody holds it and it is past its execute-before time or its day |
| PagedQueueLaws.SweepFailsTheOverdue | internal/dispatch/paged_recovery.go:230-268 | a sweep that is due fails exactly the rows not yet read that are a day old, not held and too late, and leaves every other row |
| PagedQueueLaws.AttemptSettles | internal/dispatch/account_queue.go:737-860 | an attempt that ends takes its job out of memory with one count and stores completed for half an hour, failed for two |
| PagedQueueLaws.RetryDueMoves | internal/dispatch/account_queue.go:621-637 | exactly the retries whose time has come go to the end of the queue |
| PagedQueueLaws.RetryComesBack | internal/dispatch/account_queue.go:536-550 | a job whose attempt is to be retried is owed as before, and back in the queue exactly once its time has come |
| PagedQueueLaws.AcceptedIsQueued | internal/dispatch/account_queue.go:288-300 | with nothing of its own on disk, an accepted job is stored under the queue's key and last in the queue, with one count |
| PagedQueueLaws.LoadsInOrder | internal/dispatch/paged_recovery.go:182-198 | a page joins the queue in its own order, without the jobs already held |
| PagedQueueOrder.StepMoves | internal/dispatch/account_queue.go:373-640 | no step but a dispatch takes a job from the queue's head, and none puts one before another |
| PagedQueueOrder.NoOvertaking | internal/dispatch/account_queue.go:373-640 | on every run, while a job stays in the queue no job behind it, or joining later from a caller, disk or a retry, is started |
| PagedQueueLimits.LegacyInFlightIsLost | internal/dispatch/paged_recovery.go:144-161 | a job only its hand-off can bring in stays within reach if and only if its row is not in_flight inside the recent-page window |
| PagedQueueExamples.LegacyExample | internal/dispatch/paged_recovery.go:144-161 | recovery with an in_flight row first, a page read, and its hand-off: the row is live and out of reach |
| PagedQueueLimits.LateHandoffRunsAgain | internal/dispatch/paged_recovery.go:144-161 | the hand-off of a finished job is taken in if and only if the window is over or its row is gone or expired |
| PagedQueueLimits.VanishedRowLeaksItsCount | internal/dispatch/paged_recovery.go:43-48 | when a live row vanishes the counter stays exact if and only if the job was not waiting on disk, declined, with its own count |
| PagedQueueExamples.LateHandoffExample | internal/dispatch/paged_recovery.go:144-161 | a run from recovery in which a job pages in and completes, and its late hand-off queues it again |
| PagedQueueExamples.VanishedExample | internal/dispatch/paged_recovery.go:43-48 | a run from recovery after which a vanishing row leaves the counter wrong |
| AccountQueues.AccountQueue.AttachSpill | internal/dispatch/paged_recovery.go:71-82 | reserves one count per remaining job, one by one, and adds the source |
| AccountQueues.AccountQueue.TakeAttached | internal/dispatch/paged_recovery.go:85-91 | performs TakeSpills |
| AccountQueues.AccountQueue.TrackDeadline | internal/dispatch/account_queue.go:700-704 | keeps the least deadline seen |
| AccountQueues.AccountQueue.HoldJob | internal/dispatch/paged_recovery.go:119-124 | performs Hold: queue, present set and deadline |
| AccountQueues.AccountQueue.FindOwnSpill | internal/dispatch/paged_recovery.go:132-142 | finds the cursor of the first source of the queue's own key |
| AccountQueues.AccountQueue.Accepts | internal/dispatch/paged_recovery.go:144-161 | decides a hand-off as AcceptHandoff does |
| AccountQueues.AccountQueue.ReceiveHandoff | internal/dispatch/account_queue.go:524-535 | performs Receive |
| AccountQueues.AccountQueue.DropSource | internal/dispatch/paged_recovery.go:213-221 | performs FinishSpill, giving counts back one by one |
| AccountQueues.AccountQueue.LoadRow | internal/dispatch/paged_recovery.go:182-198 | performs LoadOne but for the cursor, which moves at the end of the page |
| AccountQueues.AccountQueue.LoadRows | internal/dispatch/paged_recovery.go:182-204 | loading a page and moving the cursor once equals loading it row by row |
| AccountQueues.AccountQueue.RefillQueue | internal/dispatch/paged_recovery.go:163-211 | performs LoadPage until the queue is above its low mark or nothing is on disk, and ends |
| AccountQueues.RefillFills | internal/dispatch/paged_recovery.go:163-211 | a refill stops with at least a quarter page held or nothing on disk, does nothing to a queue that holds as much, and never holds more than a page and a quarter |
| AccountQueues.AccountQueue.SweepRow | internal/dispatch/paged_recovery.go:246-261 | performs SweepOne |
| AccountQueues.AccountQueue.SweepRows | internal/dispatch/paged_recovery.go:246-261 | performs SweepAll |
| AccountQueues.AccountQueue.SweepSource | internal/dispatch/paged_recovery.go:237-267 | reading one source page by page sweeps the rows one listing of it would |
| AccountQueues.AccountQueue.SweepSpilled | internal/dispatch/paged_recovery.go:230-268 | performs Sweep |
| AccountQueues.AccountQueue.DropExpired | internal/dispatch/account_queue.go:706-735 | performs DropExpiredJobs; the jobs left are exactly those not past their execute-before time or their day |
| AccountQueues.AccountQueue.ScanQueue | internal/dispatch/account_queue.go:715-734 | rebuilding the queue fails the expired jobs, keeps the others and finds the earliest deadline again |
| AccountQueues.AccountQueue.DropExpiredRetries | internal/dispatch/account_queue.go:677-697 | rebuilding the waiting list performs DropExpiredWaiting |
| AccountQueues.AccountQueue.RequeueDue | internal/dispatch/account_queue.go:621-637 | rebuilding the waiting list performs RetryDue |
| AccountQueues.AccountQueue.StartAttempt | internal/dispatch/account_queue.go:475-478 | performs Dispatch |
| AccountQueues.AccountQueue.DispatchReady | internal/dispatch/account_queue.go:428-522 | the dispatch loop is a run of drops and dispatches that ends; it starts only jobs that are not too late, in order, and leaves none of them behind but in the queue, until nothing is left, no slot is free, or the pace holds such a head back |
| AccountQueues.AccountQueue.ReadReport | internal/dispatch/account_queue.go:536-550 | performs Done |
| StoreKeys.HexOrder | internal/storage/pebble.go:294-310 | fixed-width hex sorts as the numbers do |
| StoreKeys.QueueKeyInjective | internal/storage/pebble.go:304-306 | no two (queue, time, ID) triples share an index key |
| StoreKeys.ExpKeyInjective | internal/storage/pebble.go:294-296 | no two (expiry, ID) pairs share an expiry key |
| StoreKeys.QueueKeyOrder | internal/storage/pebble.go:304-306 | index keys of one queue sort by creation time, then ID |
| StoreKeys.QueueBoundOrder | internal/storage/pebble.go:308-310 | the bound separates exactly the entries created before it |
| StoreKeys.ExpBoundOrder | internal/storage/pebble.go:294-298 | the expiry bound separates exactly the keys that are due |
| StoreKeys.Decodes | internal/storage/pebble.go:287-310 | the four families are apart and every key can be read back |
| StoreKeys.PageRange | internal/storage/pebble.go:497-520 | the iterator's range holds exactly the queue's own entries after the cursor and before the bound |
| PebbleProofs.CountsMove | internal/storage/pebble.go:244-259 | moving one record between statuses with these updates keeps both counts equal to a scan |
| PebbleProofs.InsertKeeps | internal/storage/pebble.go:332-373 | an insert, duplicate or not, keeps all four families and both counts in step |
| PebbleProofs.SetQueueKeyKeeps | internal/storage/pebble.go:431-457 | so does moving a record to another queue, old entry and all |
| PebbleProofs.UpdateStatusKeeps | internal/storage/pebble.go:626-642 | so does a status change |
| PebbleProofs.RecordRetryKeeps | internal/storage/pebble.go:613-624 | so does recording a retry on a queued record |
| PebbleProofs.DeleteJobKeeps | internal/storage/pebble.go:567-591 | so does deleting a record |
| PebbleCleanup.CleanupKeeps | internal/storage/pebble.go:915-979 | cleanup keeps the store in step and removes exactly the records whose expiry has passed |
| PebbleRuns.OpKeeps | internal/storage/pebble.go:332-642 | every operation, stale index entries and passing time included, keeps the store in step |
| PebbleRuns.IndexesStayExact | internal/storage/pebble.go:332-373 | from an empty store, after any run: idem: and job: in bijection by hash, exactly one exp: key per record at its current expiry, counts equal to scans |
| PebbleRuns.CleanupMatchesScan | internal/storage/pebble.go:915-979 | after any run, cleanup keeps a record if and only if a full scan would |
| PebbleTable.InsertAnswers | internal/storage/pebble.go:332-373 | the answer is the stored job of that hash and nothing changes; with none, the job's row is added and no answer given |
| PebbleTable.CallAgrees | internal/storage/sqlite.go:150-197 | every call of the Pebble store changes its records exactly as the SQL statement of the other store changes its table |
| PebbleTable.ExpiryAfterIs | internal/storage/sqlite.go:238-247 | the SQL expression for a row's expiry is the one computed from the job |
| PebbleTable.PageIsSelection | internal/storage/sqlite.go:310-334 | a page is what the query selects: key, status, expiry, cursor, bound, order and limit written out |
| PebbleTable.StoresAgree | internal/storage/sqlite.go:150-280 | after any run from an empty store the records are the table's rows, and the running counts are what counting them gives |
| PebbleLimits.RetryKeepsCountsIff | internal/storage/pebble.go:613-624 | RecordRetry keeps the counts if and only if the record is absent or queued |
| PebbleLimits.RetryBreaksCounts | internal/storage/pebble.go:613-624 | from an empty store, any job put in flight and then retried leaves the counts wrong |
| PebbleLimits.RevivedWithoutEntry | internal/storage/pebble.go:405-424 | a record put back to pending is in the index if and only if its entry was still there |
| PebbleLimits.RevivedExample | internal/storage/pebble.go:405-424 | from an empty store, any job that completed and is put back to queued is missing from the index |
| PebbleLimits.EmptyKeyPage | internal/storage/pebble.go:497-561 | a page of the empty key is the SQL query's if and only if every job on the latter has an index entry |
| PebbleLimits.UnkeyedExample | internal/storage/pebble.go:332-373 | from an empty store, a job inserted and not yet given a queue is on the query's page and not on the index's |
| Pages.PageOfFewer | internal/storage/sqlite.go:310-334 | a page of some of the rows is the page of all if and only if every job on the latter is among them |
| Pebbles.Pebble.QueuedPage | internal/storage/pebble.go:497-561 | iterating the index returns exactly the page of the indexed records, which under any queue's key is what the SQL query selects; it changes no record and drops only entries no live record needs |
| Pebbles.Pebble.PageThrough | internal/core/runtime.go:310-324 | reading the index page by page visits every matching record once, in order, for every page size, stale entries going on the way |
| PebblePages.DropsStaleKeepsPages | internal/storage/pebble.go:517-555 | dropping stale entries leaves every page as it was |
| Pebbles.Pebble.CheckAndInsert | internal/storage/pebble.go:332-373 | performs CheckOrInsert; in a sound store it returns the stored job with that hash and changes nothing, or adds the job's record |
| Pebbles.Pebble.MoveToQueue | internal/storage/pebble.go:431-457 | performs SetQueueKey |
| Pebbles.Pebble.ChangeStatus | internal/storage/pebble.go:626-642 | performs UpdateStatus |
| Pebbles.Pebble.Remove | internal/storage/pebble.go:567-591 | performs DeleteJob |
| Pebbles.Pebble.DeleteExpired | internal/storage/pebble.go:915-979 | walking the expiry index in batches performs Cleanup, stale expiry keys and all |
| PoolHeap.RootIsLeast | internal/dispatch/pool.go:83-90 | the root of an ordered heap is a minimum of all of it |
| Pools.RootIsFirst | internal/dispatch/pool.go:173-180 | the heap refines the map: its root is a member with the least position |
| Pools.Pool.Swap | internal/dispatch/pool.go:91-95 | swaps two members and keeps every tracked index right |
| Pools.Pool.Up | internal/dispatch/pool.go:168 | sifting up repairs a heap broken at one place and keeps the members and their indices |
| Pools.Pool.Down | internal/dispatch/pool.go:182 | sifting down repairs it, or leaves it to be sifted up |
| Pools.Pool.Fix | internal/dispatch/pool.go:182 | after one member's position changed either way the heap is in order again |
| Pools.Pool.Pick | internal/dispatch/pool.go:173-184 | picks a member with the least position, changes only its position, and picks none only from an empty pool |
| Pools.Pool.Push | internal/dispatch/pool.go:97-101 | adds a member at the end and sifts it up, indices and all |
| Pools.Pool.Register | internal/dispatch/pool.go:137-169 | a heartbeat changes that member only and not its position; a newcomer starts at the least position |
| Pools.Pool.RecordSuccess | internal/dispatch/pool.go:192-201 | raises one member's reputation and stops its eviction timer, heap untouched |
| Pools.Pool.RecordFailure | internal/dispatch/pool.go:209-228 | halves one member's reputation and evicts it only once its time at the floor is up |
| Pools.Pool.RemoveMember | internal/dispatch/pool.go:230-239 | removes exactly that member at its tracked index, from heap and map |
| Pools.Pool.SweepHeartbeats | internal/dispatch/pool.go:246-258 | evicts exactly the members whose last heartbeat is more than the allowed number of intervals ago |
| PoolFairness.EvenStays | internal/dispatch/pool.go:113-121 | picks, joins, departures and weights going down never put a member ahead of another by more than one of its own steps |
| PoolFairness.EvenThroughout | internal/dispatch/pool.go:137-184 | so every run from an even pool, the empty one included, stays even |
| PoolFairness.PicksAreProportional | internal/dispatch/pool.go:113-121 | after any run without a rising weight from an empty or even pool, picks per w of two members that stay with constant w, the declared rate times the reputation, differ by at most 1/w_i + 1/w_j, however long and whoever else comes and goes |
| PoolFairness.HeavierMayBeAhead | internal/dispatch/pool.go:141-148 | after a weight change the pool is even if and only if that member is within one new step of the first |
| PoolFairness.HeavierExample | internal/dispatch/pool.go:141-148 | two joins, a pick and a larger capacity leave an empty pool uneven |
| PoolLaws.StrideIs | internal/dispatch/pool.go:73-79 | a pick moves a member by one over its declared rate times its reputation |
| PoolLaws.FailureDoublesStride | internal/dispatch/pool.go:209-228 | after a failure that does not evict it, a member's next pick takes it twice as far |
| PoolLaws.SuccessShortensStride | internal/dispatch/pool.go:192-201 | a success shortens that by a third until the member is fully trusted, and never lengthens it |
| PoolLaws.TwiceAsManySuccessesRestore | internal/dispatch/pool.go:192-228 | however many failures a member survived, twice as many successes restore its trust |
| PoolLaws.FailingMemberIsEvicted | internal/dispatch/pool.go:209-228 | a member that only fails is evicted by exactly the first failure twelve seconds after its fifth |
| PoolLaws.HeartbeatKeepsAlive | internal/dispatch/pool.go:137-169 | a heartbeat counts from when it came, restores a tenth of the trust, and moves neither position nor eviction timer |
| PoolEviction.ReputationIsAShare | internal/dispatch/pool.go:192-228 | a reputation stays in (0, 1] whatever happens |
| PoolEviction.TimerMeansFailing | internal/dispatch/pool.go:209-228 | a running eviction timer dates from a failure with no success and no recovering failure since |
| PoolEviction.EvictedOnlyAfterSustainedFailure | internal/dispatch/pool.go:203-228 | eviction for failing takes the whole window without one success |
| SharedPaces.SlotsAreSpaced | internal/dispatch/shared_pace.go:91-110 | for any queues, call times and rates, each slot starts within one interval before its grant and at least one interval after the slot before |
| SharedPaces.WindowBound | internal/dispatch/shared_pace.go:57-60 | for slots granted within a window of length T, (n - 1) I <= T + I_first, I the least interval among them |
| SharedPaces.WindowHoldsIff | internal/dispatch/shared_pace.go:26-29 | they number at most T/I + 2 on every run if and only if the first interval is the least in force |
| SharedPaces.IntervalsOfRates | internal/dispatch/shared_pace.go:57-60 | the intervals rates give are exactly those from 0 to two seconds |
| SharedPaces.IntervalIs | internal/dispatch/shared_pace.go:57-60 | a rate has the interval of its own whole nanoseconds, and one below one in two seconds two seconds |
| SharedPaces.GrantsExactly | internal/dispatch/shared_pace.go:62-112 | a slot is granted exactly if the last one began an interval ago and nobody still asking has waited longer; where it then begins, and how long anyone else is told to wait |
| SharedPaces.AtMost32AtOnce | internal/dispatch/shared_pace.go:91-101 | whatever rates up to a billion a second are in force, at most 32 slots are granted at one instant |
| SharedPaces.RisingRateBurst | internal/dispatch/shared_pace.go:91-101 | 32 are, by a rate that doubles between calls |
| SharedPaces.LineStaysInTurn | internal/dispatch/shared_pace.go:73-89 | while the clock moves between calls, no two queues in line ever have the same start, on every run |
| SharedPaces.BypassedAtMostOnce | internal/dispatch/shared_pace.go:62-112 | on every run with a moving clock, while a refused queue keeps asking, any other is granted at most one slot before it, and only if it was already waiting |
| SharedPaces.WaitsBehindThoseAhead | internal/dispatch/shared_pace.go:62-112 | so the slots it waits through number at most the queues ahead of it when it first asked |
| SharedPaces.FirstInLineIsGranted | internal/dispatch/shared_pace.go:103-111 | a waiting queue is granted a free slot if and only if all that were ahead of it have stopped asking |
| SharedPaces.AskingAgainIsInTime | internal/dispatch/shared_pace.go:65-67 | a queue that asks again after the wait it was given is not forgotten |
| SharedPaces.SharedPace.DropStale | internal/dispatch/shared_pace.go:65-72 | the loop forgets exactly the queues that stopped asking |
| SharedPaces.SharedPace.Earlier | internal/dispatch/shared_pace.go:103-108 | the loop finds whether any other queue has waited longer |
| SharedPaces.SharedPace.Take | internal/dispatch/shared_pace.go:62-111 | performs Reserve |
| SharedPaces.SharedPace.ReserveAt | internal/dispatch/shared_pace.go:49-112 | a non-positive rate never limits and changes nothing; any other performs Reserve at its interval |
| FairAdmission.PressureRange | internal/admission/fair.go:102-103 | pressure is in [0, 1], positive exactly past 70% of the budget, full exactly at it |
| FairAdmission.ExcessRange | internal/admission/fair.go:104-106 | excess is in [0, 1], positive exactly past the fair share, full exactly from twice the share |
| FairAdmission.AdmittedForEveryDraw | internal/admission/fair.go:69-115 | exactly when a request is let in whatever the draw, in terms of the counts: queue times active queues against the budget, 4 totals against 5 budgets or floors, 10 against 7 |
| FairAdmission.RefusedForEveryDraw | internal/admission/fair.go:69-115 | exactly when a request is refused whatever the draw, in the same terms |
| FairAdmission.DrawDecides | internal/admission/fair.go:101-113 | in between, exactly which draws refuse a request |
| FairAdmission.DecisionReports | internal/admission/fair.go:69-115 | what a decision reports, and that a refusal names the budget exactly if the total is past it |
| Sums.SomeAtLeastAverage | internal/dispatch/url_worker.go:340-353 | a total of at least c over the active queues has one with at least the average of c |
| Workers.StepCounted | internal/dispatch/account_queue.go:175-211 | every counter update, one atomic at a time and under no lock, keeps the worker's counters equal to its queues up to the updates in progress |
| Workers.CountersStayExact | internal/dispatch/account_queue.go:175-211 | on every interleaving; so whenever none is in progress the total is the sum over the queues and the active count the queues with a positive backlog |
| Workers.AdmitBelow | internal/dispatch/url_worker.go:324-379 | a decision made on counters read one by one while releases go on still leaves the total below the ceiling |
| Workers.CeilingHolds | internal/dispatch/url_worker.go:128-143 | through any interleaving of admitted requests, completions and positive budget changes the total stays within 1.25 times the larger of budget and shrink floor |
| Workers.FreshWorker | internal/dispatch/url_worker.go:164-186 | a new worker meets both |
| Workers.SmallTenantEnters | internal/dispatch/url_worker.go:340-379 | a tenant at or under its share is admitted whatever the draw while the total is within the ceiling |
| Workers.ShrinkingKeepsSmallTenants | internal/dispatch/url_worker.go:120-143 | right after a shrink below what is held, a tenant under its share of the new budget is still admitted whatever the draw |
| Workers.SomeTenantIsRefused | internal/admission/fair.go:87-97 | once the budget is used up, some active queue is over its share and refused whatever the draw |
| Workers.ActiveOnceIn | internal/dispatch/url_worker.go:341-353 | the queues a share is taken over are those active once the request is in |
| Workers.SharedQueueTakes | internal/dispatch/url_worker.go:355-379 | without per-account queues a request is taken exactly within the budget |
| Workers.FloorEndsWhenDrained | internal/dispatch/url_worker.go:355-379 | the room left by a shrink ends once the backlog is within the budget, and admissions are then bounded by the budget alone |
| Workers.BudgetMovesFloor | internal/dispatch/url_worker.go:128-143 | a shrink leaves room for exactly what is held, and a raise takes it back |
| Workers.URLWorker.Tally | internal/dispatch/url_worker.go:341-353 | the loop adds up exactly the backlog, the active queues and the requesting queue's part |
| Workers.URLWorker.ReserveBacklog | internal/dispatch/account_queue.go:175-182 | performs a whole reservation and keeps the counters exact |
| Workers.URLWorker.ReleaseBacklog | internal/dispatch/account_queue.go:204-211 | performs a whole release and keeps the counters exact |
| Workers.URLWorker.AdmitAndReserve | internal/dispatch/url_worker.go:324-417 | decides as Ask, clears a drained floor, and reserves exactly when admitted |
| Workers.URLWorker.SetMaxBacklog | internal/dispatch/url_worker.go:128-143 | performs SetMax |
| Intake.FoundIsAccepted | internal/core/aquifer.go:226-260 | a row found by the holder of its key's claim is an accepted job of that key |
| Intake.StepKeeps | internal/core/aquifer.go:176-314 | every step but a panic inside Dispatch keeps the invariant |
| Intake.RunKeeps | internal/core/aquifer.go:176-314 | so does every run |
| Intake.ReturnedIdIsReal | internal/core/aquifer.go:205-229 | on every interleaving, an ID returned as fresh or as a local duplicate names a job accepted under that call's own key, never deleted by a call, in the store until it expires |
| Intake.AcceptedForGood | internal/core/aquifer.go:275-277 | an accepted job stays accepted and no later call deletes it |
| Intake.OneAcceptedPerKey | internal/core/aquifer.go:245-260 | no two accepted jobs in the store share a key |
| Intake.ProvisionalRowIsClaimed | internal/core/aquifer.go:205-214 | a row not yet accepted exists only while its inserter, and nobody else, holds its key's claim |
| Intake.OnlyDispatchPanicBreaks | internal/core/aquifer.go:230-243 | a step keeps the invariant if and only if it is not a panic inside Dispatch |
| Intake.PanickedDispatchMisleads | internal/core/aquifer.go:307-314 | after such a panic the next call with the key is told it is a duplicate of a job never accepted |
| Aquifers.KeyClaims.TryClaim | internal/core/aquifer.go:452-472 | takes a free key for one holder, and leaves a busy one alone |
| Aquifers.KeyClaims.Release | internal/core/aquifer.go:463-471 | frees the key once; a second release changes nothing, whoever holds it by then |
| Aquifers.EnqueueIsARun | internal/core/aquifer.go:176-191 | an uninterrupted call is a run of the interleaved model with this outcome, and answers as it should: a new job exactly if its hash is new, no other region has it, it is valid and the queue takes it |
| Aquifers.Aquifer.Prepare | internal/core/aquifer.go:245-302 | leaves its row exactly when the job passes every check, else the store as it was |
| Aquifers.Aquifer.Dispatch | internal/core/aquifer.go:307-314 | a refused job's row is gone, an accepted one's stays |
| Aquifers.Aquifer.Enqueue | internal/core/aquifer.go:176-191 | gives the claim back; each of the four results in exactly its own case, a new job with its row and hash added, a duplicate with the stored ID, and anything else with the store as it was |
| Aquifers.Aquifer.Settle | internal/core/aquifer.go:176-191 | under the claim: prepared, then dispatched unless turned away |
| Assignments.FirstFreeIsFree | internal/cluster/valkey.go:163-177 | the scan's choice is the first active candidate below capacity |
| Assignments.LeastLoadedIsLeast | internal/cluster/valkey.go:178-182 | its fallback is the first least loaded active candidate |
| Assignments.ChoiceIsOne | internal/cluster/valkey.go:163-185 | those descriptions have exactly one answer |
| Assignments.AssignAgrees | internal/cluster/valkey.go:134-192 | an assignment, sticky, moved or new, keeps entries and keys agreed |
| Assignments.StepAgrees | internal/cluster/valkey.go:63-272 | so does every script, removal, clean-up at any later time, and passing time |
| Assignments.NoScopeCountsTwice | internal/cluster/valkey.go:134-192 | in every reachable state an unexpired entry names the instance its scope's key names, with the same expiry, so no scope counts against two |
| Assignments.AssignGives | internal/cluster/valkey.go:188-191 | the owner returned is active, holds the key for the whole time to live, and has the scope counted |
| Assignments.AssignIsSticky | internal/cluster/valkey.go:152-158 | with no release, expiry or inactivity in between, asking again returns the same owner whatever else happens and whatever candidates are passed |
| Assignments.FullOnlyWhenAllFull | internal/cluster/valkey.go:163-191 | a full instance is chosen only when every active candidate is full, never under the strict rule, and then a least loaded one |
| AssignmentLaws.AssignByLoad | internal/cluster/valkey.go:134-192 | a scope stays with a living key and a serving owner; else it goes to the first candidate with room, else, unless strict, to the first with the least users per capacity, compared by cross-multiplication; else to nobody |
| AssignmentLaws.AssignedFor | internal/cluster/valkey.go:188-191 | the owner has the scope for exactly the time to live |
| AssignmentLaws.RenewedFor | internal/cluster/valkey.go:225-249 | so has an owner that renews; anyone else's renewal does nothing |
| AssignmentLaws.ReleasedByOwner | internal/cluster/valkey.go:251-264 | released by its owner a scope is nobody's and counts against nobody; anyone else's release does nothing |
| AssignmentLaws.ServesUntil | internal/cluster/valkey.go:63-73 | an instance serves from its heartbeat until the time it named, if it accepts work, and not once removed |
| ValkeyStore.Valkey.Look | internal/cluster/valkey.go:167-178 | trims and counts one candidate |
| ValkeyStore.Valkey.LookAll | internal/cluster/valkey.go:163-184 | the candidate loop finds the first free and the first least loaded, trimming as it goes |
| ValkeyStore.Valkey.Assign | internal/cluster/valkey.go:134-223 | performs Assign, default capacities filled in |
| ValkeyStore.Valkey.Renew | internal/cluster/valkey.go:225-249 | renews exactly the scopes this instance still owns |
| ValkeyStore.Valkey.Release | internal/cluster/valkey.go:251-264 | performs Release |
| ValkeyStore.Valkey.Heartbeat | internal/cluster/valkey.go:63-73 | performs Heartbeat |
| ValkeyStore.Valkey.RemoveInstance | internal/cluster/valkey.go:266-272 | performs RemoveInstance |
| ValkeyStore.Valkey.StaleMembers | internal/cluster/valkey.go:88-114 | finds exactly the members without a live and complete payload |
| ValkeyStore.Valkey.RemoveStale | internal/cluster/valkey.go:115-122 | performs CleanUp on whatever that read found |
| Rendezvous.RankedSorts | internal/cluster/router.go:308-316 | the ranking holds exactly the members, sorted by score and then ID |
| Rendezvous.LeavingDisturbsNoOther | internal/cluster/router.go:292-317 | a member that leaves drops out of every ranking and changes nothing else in it |
| Rendezvous.OnlyOwnScopesMove | internal/cluster/router.go:292-317 | a member that joins takes scopes only for itself |
| ScopeRelease.HeldStill | internal/cluster/router.go:452-478 | while a pass holds a scope's lock nobody else changes that scope |
| ScopeRelease.ReleasesAreSafe | internal/cluster/router.go:342-377 | on every interleaving a scope is released only with no local job in progress and after its idle or grace time, and every scope's count is the jobs in progress |
| ScopeRelease.GivesBackExactly | internal/cluster/router.go:452-476 | a pass gives a scope back exactly if it has no work and has gone unseen for the idle time, or for the grace time and not the idle time |
| ScopeRelease.NothingBetweenCheckAndRelease | internal/cluster/router.go:591-613 | between check and release no job is tracked for the scope and it is not seen, whatever else happens |
| Routers.Router.TrackLocalJob | internal/cluster/router.go:342-359 | counts one more job and marks the scope seen |
| Routers.Router.CompleteLocalJob | internal/cluster/router.go:361-377 | counts one less, never below zero, and marks it seen |
| Routers.Router.RankedOwners | internal/cluster/router.go:292-317 | ranks exactly the eligible members; forgetting expired prunings changes nothing from then on |
| Routers.Router.ActiveScopeCount | internal/cluster/router.go:643-651 | the loop counts exactly the active scopes |
| Routers.Router.ReleaseIdle | internal/cluster/router.go:432-478 | gives back exactly the scopes without work that are idle at the start of the pass and still when their turn comes |
| Routers.Router.Load | internal/cluster/router.go:537-544 | the loop counts the eligible members and their users |
| Routers.Router.Target | internal/cluster/router.go:577-589 | the target is exactly the preferred node, if it is another one and below the fair share and its capacity |
| Routers.Router.HandBack | internal/cluster/router.go:568-618 | one pass hands back at most ten and at most the excess, and no node gets past ceil(fair) or its capacity; every scope it tried went or had to stay, and it stops early only when enough have gone or the store fails |
| Routers.Router.Rebalance | internal/cluster/router.go:532-622 | hands back only when above 1.5 times the fair share, only scopes without work and unseen, to their preferred node, keeping its own ceil(fair); an overloaded node hands back every idle scope that can go |
| Schedulers.PublishSets | internal/websocket/queue.go:378-394 | afterwards every position is the index plus one, and nothing else changed |
| Schedulers.SlowerIsLonger | internal/websocket/queue.go:354-376 | a lower rate never shortens the interval |
| Schedulers.GrantKeeps | internal/websocket/queue.go:334-358 | a grant keeps the invariant: slots conserved, order, positions, spacing |
| Schedulers.StepKeeps | internal/websocket/queue.go:141-265 | so does every other call that does not make an admission both cancelled and taken |
| Schedulers.SlotsAreConserved | internal/websocket/queue.go:141-229 | on every run the active count is the grants not released or cancelled, within the maximum, and every waiter's position is its index plus one |
| Schedulers.GrantsFollowArrival | internal/websocket/queue.go:57-59 | everyone who came before a grant was granted before it or cancelled |
| Schedulers.GrantsAreSpaced | internal/websocket/queue.go:332-358 | any n consecutive grants take at least n - 1 configured intervals |
| Schedulers.RampStaysInRange | internal/websocket/queue.go:231-253 | the ramp stays between slow start and the configured rate |
| SchedulerLaws.GrantsExactly | internal/websocket/queue.go:334-376 | a pass grants exactly if somebody waits, the time has come and a slot is free by the configured and the advertised maximum; the next is then at least an interval of the slowest rate in force away, and at most a tenth more |
| SchedulerLaws.AdvertisedFull | internal/websocket/queue.go:255-265 | a target that advertises no more than it has gets no more |
| SchedulerLaws.ComesAndIsGranted | internal/websocket/queue.go:141-162 | somebody who comes when nobody waits, a slot is free and the time has come is granted at once; a full queue takes nobody |
| SchedulerLaws.GrantsKeepAdvertisedRate | internal/websocket/queue.go:354-376 | while a rate is advertised, n consecutive grants take at least n - 1 of its intervals |
| SchedulerLaws.RampDoubles | internal/websocket/queue.go:231-253 | after a failure the ramp starts slow and doubles with every success up to the configured rate |
| SchedulerLaws.FailureDelays | internal/websocket/queue.go:241-253 | those who wait at a failure wait at least an interval of the slow start, and nobody is brought forward |
| Schedulers.OnlyMisuseBreaks | internal/websocket/queue.go:164-229 | a step keeps the books if and only if it does not make an admission both cancelled and taken |
| Schedulers.LateCancelFreesTwice | internal/websocket/queue.go:213-229 | Cancel after Wait has returned, and the release, leave the count one below the open grants |
| Schedulers.CancelThenWaitFreesTwice | internal/websocket/queue.go:175-181 | so do Cancel of a granted admission, Wait returning on its closed channel, and the release |
| SchedulerLimits.BothOrdersFreeTwice | internal/websocket/queue.go:164-229 | both happen from a run of a new scheduler |
| WebSocketQueue.Defaulted | internal/websocket/queue.go:83-101 | every configuration becomes a usable one, and a usable one is kept |
| WebSocketQueue.Scheduler.PublishPositions | internal/websocket/queue.go:378-394 | the loop performs Publish |
| WebSocketQueue.Scheduler.EnqueueUpstream | internal/websocket/queue.go:141-162 | performs Enqueue, or reports a full queue |
| WebSocketQueue.Scheduler.RemoveWaiter | internal/websocket/queue.go:410-417 | removes the first occurrence, if any |
| WebSocketQueue.Scheduler.LeaveQueue | internal/websocket/queue.go:194-207 | performs Leave |
| WebSocketQueue.Scheduler.GiveUp | internal/websocket/queue.go:193-208 | performs Leave and ends the Wait |
| WebSocketQueue.Scheduler.ReceiveReady | internal/websocket/queue.go:175-181 | returns the release function exactly when the channel is closed, whether or not the slot is still held |
| WebSocketQueue.Scheduler.CancelAdmission | internal/websocket/queue.go:213-229 | performs Cancel |
| WebSocketQueue.Scheduler.ReleaseSlot | internal/websocket/queue.go:396-408 | performs Release once |
| WebSocketQueue.Scheduler.DropCanceledHeads | internal/websocket/queue.go:338-341 | the loop performs DropCanceled |
| WebSocketQueue.Scheduler.Ready | internal/websocket/queue.go:334-358 | performs GrantReady, and reports how long until the next grant is due |
| WebSocketQueue.Scheduler.ReportSuccess | internal/websocket/queue.go:231-239 | performs Success |
| WebSocketQueue.Scheduler.UpdateCapacity | internal/websocket/queue.go:255-265 | performs Update: only positive values are taken over |
| WebSocketQueue.Scheduler.ReportFailure | internal/websocket/queue.go:241-253 | performs Failure: never brings the next grant forward |
| InboundRate.RateStaysInRange | internal/admission/inbound_rate.go:293-329 | from a valid start the rate stays in [floor, ceiling], and at or below the learned threshold while congested |
| InboundRate.ValidStart | internal/admission/inbound_rate.go:132-149 | exactly which settings start in range |
| InboundRate.WhenTheRateMoves | internal/admission/inbound_rate.go:19-31 | the rate falls only when unhealthy and by at most 30%, and rises only when healthy and used, by half below the threshold and 5% above it |
| InboundRate.RateMovesExactly | internal/admission/inbound_rate.go:293-329 | exactly when and to what the rate is cut, raised or left, with health written out from the readings |
| InboundRate.CutRemembers | internal/admission/inbound_rate.go:297-312 | a cut starts the cooldown, and outside an episode begins one and remembers 90% of the rate |
| InboundRate.StartsAtPercent | internal/admission/inbound_rate.go:132-149 | the start is the given part of the benchmark, at least one a second |
| InboundRate.CutsAreApart | internal/admission/inbound_rate.go:297-312 | cuts are at least three ticks apart |
| InboundRate.CutsAfterHealthy | internal/admission/inbound_rate.go:300-312 | n unhealthy ticks after a healthy one cause at most 1 + (n - 1) / 10 cuts |
| InboundRate.ThresholdKeptInEpisode | internal/admission/inbound_rate.go:47-51 | only the first cut of an episode learns the threshold |
| InboundRate.InboundRateController.Judge | internal/admission/inbound_rate.go:246-281 | judges health from latency, backlog and disk, updating baseline and history |
| InboundRate.InboundRateController.TickOnce | internal/admission/inbound_rate.go:237-329 | performs Tick and reports the adjustment made |

## Left out

- Panic restart of a run loop (`reloadAfterPanic`): attempts of the dead loop still report back, so exact backlog and single copy do not carry across it.
- Shutdown (`Stop`, `clearBacklog`, `Close`, `failWaiters`): counters are not meant to balance while stopping.
- Recovery of rows under a moved key, which can hold a hand-off's count and a reserved one at once.
- The `/proxy` path, which gives the key's claim back before `Dispatch`.
- Budgets of 0 (unlimited) and enqueues that are not admitted (webhooks, recovery), for the ceiling only: the counters are proved with them.
- `seedCounts` and `backfillExpiryIndex` after a restart, I/O errors, and writes lost before a sync.
- `ClearIdempotentKeys`, drain events and result records.
- Pub/sub following of WebSocket sessions, client slots, and the timers that wake the scheduler and the run loops.
- HTTP handlers, adapters, L8, JSON, metrics, region polling, environment parsing, benchmarks.
- Floating-point rounding, SHA-256, and the percentile of insert latencies (a tick takes it as given).
- The per-queue pace, its reaction to answers, and a maximum in flight lowered at run time (the configured one is proved).
- Blocking: a call that waits for a claim or a lock is a step not yet enabled; that it is woken is not modelled.
- AccountQueue: a sweep and a page are each one step; the source interleaves other goroutines' store writes between their rows.
- Attempts, results and other fields of a job record that no property depends on.
