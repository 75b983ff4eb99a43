# pg_task_scheduler: a verified model of the leased work queue

pg_task_scheduler keeps its queue in three PostgreSQL tables. `scheduler_runs` holds one row per
task, `scheduler_run_attempts` one row per claim of a task, and `scheduler_jobs` one row per
recurring schedule. Every transition is a short SQL transaction. Workers, producers, operators and
maintenance loops interleave those transactions freely, and a worker may act on a token that has
long been superseded. The facts that make this safe span two tables and whole histories, so no
row-local `CHECK` can state them. This project states and proves them.

## How the model is built

| module | content |
|---|---|
| `Rows` | the rows and their `CHECK` constraints |
| `Lease` | one task on its own, as an automaton over its row and its attempt log: the WHERE clauses, the SET lists, the invariant, the budget, and the order "may become" on task histories |
| `Tables` | the whole database, batches of moves on it, the cross-table invariant `Inv` and the order `Evolves` |
| `Protocol` | every transaction as a step `Next(db, event)`; each step keeps `Inv`, evolves the state, and acts on each task as one legal move |
| `Runs` | theorems over every run of any length: fencing, one winner, bounded work, disjoint attempts, conservation |
| `ReadCommitted` | what cancel and recover do when their attempts snapshot is older than the locked row |
| `Instants` | the histories of one task when its row and its attempt are written at two instants |
| `Inspect` | the public projection `state_of` against the attempt log and against the transaction that ended the task |
| `Schedule` | who may move a cursor, and what becomes of each slot it leaves |
| `Ordering` | `ORDER BY ... LIMIT` |
| `Statements`, `Store` | the SQL statement by statement on mutable tables, with the branches on affected-row counts; every method of the class is proved to perform its step of `Protocol` |
| `Columns` | every transaction again in columns and literals alone: which rows a batch takes, what each column holds afterwards |
| `Drain` | the materializer's loop, tick by tick, and the jobs that stop it |
| `Worker`, `Heartbeat`, `Tending`, `Holders` | permits, the timed heartbeat loop, that loop placed in a run among all other actors, and all claim holders including stalled and dead ones, with responses lost or late |
| `Durations` | the validated durations at the Rust and SQL boundaries |

A run is a sequence of states from the empty database in which each step is any enabled
transaction. Which rows a batch picks is open in `Protocol` (any rows its WHERE clause admits), so
the theorems of `Runs` hold under every effect of row locks, `SKIP LOCKED` and `LIMIT`. `Store`
fixes the choice to the one the query makes.

Assumptions taken over from PostgreSQL and the environment:

- Each transaction reads `clock_timestamp()` once (`now`) and `now()` once (`txNow`), with
  `txNow <= now`; the clock never goes back. Host and database share one clock. Three clauses need
  the single instant: that a row and its last attempt end at the same instant
  (`Inspect.RowAgreesWithLog`, `Inspect.LogDecidesState`), that a reported attempt ended inside its
  lease (`Lease.MoveKeepsTaskOk`), and that the backoff counts from the attempt's `finished_at`
  (`Runs.AttemptsDisjoint`). `Instants` drops it, with the row and the attempt written at two
  instants, and says what holds then.
- Generated run ids, job ids and tokens are new. Times and counts are unbounded integers.
- Under READ COMMITTED a locked row is read current, while other rows of the same statement come
  from its snapshot and are rechecked in their current version before they are updated.
- `next_after` answers strictly later than it was asked about, or not at all.

Where the code does not do what its comments say, the model follows the code:

- The comment at src/store/materialize.rs:54-55 says a single bad row cannot block the rest. That
  is true of a cron that does not parse, which is paused, and false of a row whose cron parses but
  for which `next_after` answers with an error: the error rolls the tick back and leaves the loop.
  (That the engine can answer so is assumed, as the error path at src/store/materialize.rs:88 does;
  whether a stored five-field expression ever makes it do so is up to the engine, or to whoever
  wrote the row.) `Drain.StuckJobBlocks` is a run that gets there, `Drain.StuckJobStopsDrains`
  shows that every later drain then handles nothing until somebody intervenes.
  `Drain.DrainSucceedsIff` and `Drain.DrainFailsIff` say exactly when the loop gets through
  however ties of cursors are broken, and exactly when it fails however they are; between the two
  there is a drain that ends well and one that fails.
- `cancel` can answer `AlreadyTerminal` for a task that is alive, because its two statements read
  different states: `ReadCommitted.CancelBehindClaim` (a task just claimed) and
  `ReadCommitted.CancelBeforeCommit` (a task just committed). `ReadCommitted.AlreadyTerminalIsWrongIff`
  says exactly when, for an EXISTS query at any later state.
- `reschedule` with an explicit time on a job whose stored cron is corrupt moves the cursor and
  still returns the corruption error.

## Model

| member | source | states |
|---|---|---|
| `Lease.MoveKeepsTaskOk` | migrations/0001_create_scheduler_tables/up.sql:80-145 | every legal move keeps all CHECKs of the row and of each attempt, the agreement of row and last attempt, and the order of the log |
| `Lease.MoveSpendsBudget` | src/store/claim.rs:43-46 | 2*(max - count), plus 1 if running, 0 if terminal: a state change lowers it by at least one, a renewal keeps it |
| `Lease.MoveEvolves` | src/store/finalize.rs:11-25 | a move never rewrites a closed attempt, moves a deadline back, revives an expired one, or touches a terminal task |
| `Lease.EvolvesTransitive` | docs/Concurrency.md:51-55 | what no single move may undo, no sequence of moves may undo |
| `Tables.PerformView` | src/store/claim.rs:43-68 | a batch of row and attempt writes is, for every task, its own single move |
| `Tables.PerformInv` | docs/SchedulerDesign.md:43-47 | a batch of legal moves keeps the whole cross-table invariant |
| `Protocol.StepKeeps` | docs/SchedulerDesign.md:43-47 | every transaction, in any state satisfying the cross-table invariant, keeps it and evolves the state |
| `Protocol.StepRefinesMove` | docs/Concurrency.md:51-55 | every transaction acts on each surviving task as one legal move of its row and log |
| `Protocol.OthersUntouched` | src/jobs.rs:6-9 | enqueue, materialize, prune and schedule edits leave every other task and attempt as it was |
| `Runs.RunInv` | docs/SchedulerDesign.md:43-47 | the invariant holds in every state of every run |
| `Runs.RunEvolves` | docs/Concurrency.md:51-55 | any later state of a run evolves from any earlier one |
| `Runs.RunningIffOneOpenAttempt` | docs/SchedulerDesign.md:43-46 | a task is running iff it has exactly one open attempt; that one is numbered attempt_count and carries worker, token, start and deadline of the row; otherwise it has none |
| `Runs.TokenFindsOneAttempt` | src/store/finalize.rs:144-154 | the token-wide attempt updates hit exactly one row, so every `attempts != 1` error is dead |
| `Runs.CurrentWasCurrent` | src/store/finalize.rs:62-73 | a token that is current was current ever since it was issued; its deadline never moved back, and not at all once passed |
| `Runs.DeadTokenStaysDead` | src/store/finalize.rs:16-17 | an expired, superseded, cleared or pruned token is never acceptable again |
| `Runs.Fenced` | src/store/finalize.rs:37-68 | no later finalize, fail or renew with a dead token changes any row |
| `Runs.RefusedForever` | src/store/finalize.rs:137-143 | a refused call is refused for ever |
| `Runs.ClaimsNeverShareTokens` | src/store/claim.rs:48 | two claims anywhere in a run never hand out the same token |
| `Runs.ClaimsAreDisjoint` | src/store/claim.rs:34-46 | between two claims of one task some step requeued it, and the later claim opens a higher attempt number |
| `Runs.RequeuedBy` | src/store/finalize.rs:39-42 | only a retryable failure reported by the live holder, or the recovery of an overdue row, requeues a task |
| `Runs.TerminalIsForever` | src/store/finalize.rs:27-35 | a terminal row and its log never change until pruned |
| `Runs.PrunedIsForever` | src/queue.rs:238-255 | a pruned id never reappears |
| `Runs.SpecIsImmutable` | src/queue.rs:133-143 | name, payload, schedule, priority, retry and lease policy never change after creation |
| `Runs.WinsIffEnds` | src/store/finalize.rs:110-204 | the answers Applied, Failed, recovered-to-failed and Cancelled are given exactly by the step that ends the task |
| `Runs.AtMostOneWinner` | docs/Concurrency.md:51-55 | over all callers and all time at most one such answer is ever given for a task |
| `Runs.TerminalHasWinner` | src/store/finalize.rs:110-204 | every task that has ended was ended by one of those answers |
| `Runs.ChangesWithinBudget` | src/store/reap.rs:39-42 | state changes so far plus budget left never exceed 2*max_attempts |
| `Runs.BoundedTransitions` | migrations/0001_create_scheduler_tables/up.sql:80-85 | a task makes at most 2*max_attempts state transitions in any run |
| `Runs.AttemptsDisjoint` | src/store/finalize.rs:43-46 | a later attempt starts no earlier than an earlier one ended, plus the backoff after a failure, and not before the deadline after an expiry |
| `Runs.LiveOrOverdue` | src/store/reap.rs:25-26 | a running row is at each instant acceptable to its holder or recoverable, never both or neither |
| `Runs.LeaseIsExclusive` | src/store/reap.rs:21-63 | only the holder's own report or a cancellation takes an unexpired lease away; the deadline moves only by its renewal |
| `Runs.TendedLeaseIsKept` | src/store/finalize.rs:62-73 | a lease renewed at gaps shorter than its duration is kept through any interleaving of all other actors |
| `Runs.TasksConserved` | src/queue.rs:238-271 | tasks ever created equal tasks present plus tasks pruned |
| `Runs.KeyStaysWithTask` | docs/Concurrency.md:123-127 | of two enqueues with one key in a run the later returns the id of the earlier, and changes nothing, iff that task has not been pruned in between |
| `Runs.RunGrows` | docs/Concurrency.md:51-55 | a run goes on with any enabled transaction, so any history of `Store` calls is a run |
| `Instants.OneInstant` | src/store/finalize.rs:11-25 | with equal instants a two-instant move is the move of the rest of the model |
| `Instants.HistoryIsOrdered` | src/store/finalize.rs:11-60 | with two instants: attempts are still ordered and disjoint, an expired one ends before the next starts and not before its deadline, and the row of a reported end is written inside the lease and no later than the attempt |
| `Instants.BackoffIsKept` | src/store/finalize.rs:43-46 | a retried failure is available at the instant its row was written plus the backoff, until it is claimed |
| `Instants.RetryWaits` | src/store/claim.rs:37-49 | the next attempt starts at least the backoff after the row of the failure was written, and not before its attempt was closed |
| `Runs.NewTaskIsPending` | src/queue.rs:133-143 | only enqueue and the materializer create tasks, pending, without attempts and with a full budget |
| `ReadCommitted.GuardIff` | src/store/reap.rs:57-59 | the EXISTS guard holds iff the snapshot already shows the attempt of the current claim |
| `ReadCommitted.GuardIsNeeded` | src/queue.rs:202-207 | the row update without its guard breaks the invariant in every reachable state |
| `ReadCommitted.CancelStep` | src/queue.rs:181-210 | a cancel ends a cancellable task and otherwise changes nothing |
| `ReadCommitted.CancelledIsExact` | src/queue.rs:214-225 | with any past snapshot, `Cancelled` is answered iff the step changed the table, and then the task was alive, is cancelled and has no open attempt |
| `ReadCommitted.CancelHitsOrMisses` | src/queue.rs:181-210 | a cancel changes nothing iff it misses: the task is not there yet, or is alive and the snapshot does not show it or its claim; otherwise the task has ended |
| `ReadCommitted.AlreadyTerminalIsWrongIff` | src/queue.rs:214-235 | with EXISTS at any later state: `AlreadyTerminal` about a live task is answered iff CANCEL missed it; a cancel that did not miss leaves no later state in which the task is alive |
| `ReadCommitted.CurrentSnapshotIsExact` | src/queue.rs:218-235 | with a current snapshot and EXISTS at any later state, all answers about a present task are exact; about an absent id the answer is wrong iff its task was committed in between and lives |
| `ReadCommitted.RecoverActsIff` | src/store/reap.rs:30-59 | an overdue row in the batch is expired if the snapshot shows its attempt, and else is left as it was, still recoverable |
| `ReadCommitted.CancelBehindClaim` | src/queue.rs:181-210 | a concrete run in which a cancel blocked behind a claim answers `AlreadyTerminal` for a running task |
| `ReadCommitted.CancelBeforeCommit` | src/queue.rs:145-147 | a concrete run in which a task committed between CANCEL and EXISTS gets `AlreadyTerminal` while pending |
| `Inspect.RowAgreesWithLog` | src/store/inspect.rs:26-62 | in every reachable state `state_of` succeeds, says what the last attempt says, error included, and all earlier attempts failed or expired |
| `Inspect.LogDecidesState` | src/store/inspect.rs:26-62 | in every reachable state: running iff the last attempt is open, completed iff it completed; a failed task carries the error of its failed last attempt, or the exhaustion text if that expired |
| `Inspect.WinnerDecides` | src/store/inspect.rs:42-61 | what the ending transaction reported (state, instant, error) is what every later reader sees until the task is pruned |
| `Schedule.ScheduleChangesOnlyBy` | src/jobs.rs:6-9 | a cursor changes only in the materializer or reschedule, the pause flag only in pause, resume or the corrupt branch, a name never; a job vanishes only by delete |
| `Schedule.ScheduleIsStable` | src/jobs.rs:133-138 | without those operations a job keeps name, cursor and flag through any run, however often it is registered again |
| `Schedule.DueSlotSurvives` | src/jobs.rs:133-138 | a due slot can still be materialized after any such run, and the step leaves a task for that slot |
| `Schedule.RunMintsOnce` | src/store/materialize.rs:36-43 | without reschedule no slot is ever inserted twice, prunes included, and all inserted slots lie behind the cursor |
| `Schedule.EverySlotExactlyOnce` | src/store/materialize.rs:85-105 | without reschedule a cursor never decreases and each value it left was inserted exactly once ever |
| `Schedule.OneRowPerOccurrence` | migrations/0001_create_scheduler_tables/up.sql:148-150 | with arbitrary reschedules at most one row per (job, slot) is present in any state |
| `Schedule.JobStays` | src/jobs.rs:263-268 | a deleted job id never comes back |
| `Ordering.OrderBy` | src/store/claim.rs:40 | enumerates exactly the rows in strict order |
| `Ordering.PrefixIsBest` | src/store/claim.rs:40-42 | the first k rows are k best ones |
| `Ordering.BestIsUnique` | src/store/claim.rs:40-42 | the best k rows are determined by the data |
| `Ordering.SelectBest` | src/queue.rs:248-250 | min(limit, n) distinct rows, none left out outranks one taken |
| `Statements.AlreadyTerminalIsExact` | src/store/finalize.rs:27-35 | IS_TERMINAL at any state from a refused call on: `AlreadyTerminal` means the one winner, another transaction, ended the task for good |
| `Statements.FencedIsExact` | src/store/finalize.rs:137-143 | `Fenced` means the task had not ended there or was gone, and the token is dead for ever |
| `Statements.FinalizeAnswerIff` | src/store/finalize.rs:136-156 | `Applied` is answered iff the step ended the task; `Fenced` and `AlreadyTerminal` iff only the clock moved, told apart by what IS_TERMINAL reads |
| `Statements.FailAnswerIff` | src/store/finalize.rs:165-204 | `Failed` iff the step ended the task, `Retried(t)` iff it requeued it for t, the other two iff only the clock moved |
| `Statements.OneReportedEnd` | src/store/finalize.rs:110-204 | over all callers and all time at most one call is answered that it ended the task |
| `Statements.RenewAnswerIff` | src/store/finalize.rs:62-73 | `Renewed(d)` iff the lease was live and the row, still held by the token, then has deadline d, and so has its open attempt; `Fenced` means only the clock moved |
| `Statements.RecordIsLocal` | src/store/finalize.rs:21-25 | the token-wide UPDATE of attempts is the move of the one task |
| `Statements.FinalizeStep` | src/store/finalize.rs:110-156 | the two statements of a finalize are its step, hit one attempt and keep the invariant |
| `Statements.FailStep` | src/store/finalize.rs:158-204 | the same for fail |
| `Statements.RenewStep` | src/store/finalize.rs:206-235 | the same for renew |
| `Columns.FinalizeColumns` | src/store/finalize.rs:11-25 | every column FINALIZE and RECORD_ATTEMPT write, exactly when running, token and deadline match; otherwise nothing |
| `Columns.FailColumns` | src/store/finalize.rs:37-60 | every column FAIL and RECORD_ATTEMPT write, requeued with the backoff iff retryable and attempts remain |
| `Columns.RenewColumns` | src/store/finalize.rs:62-73 | both deadlines become now plus the row's lease duration, nothing else changes |
| `Statements.ClaimStep` | src/store/claim.rs:43-65 | the UPDATE and the INSERT of a claim are its moves, and issue its tokens |
| `Statements.ClaimTakesBest` | src/store/claim.rs:34-42 | the ranks and the limit choose by priority descending, availability ascending, id ascending, among the pending, available, unlocked tasks of the names |
| `Statements.PickClaims` | src/store/claim.rs:34-42 | exactly those best min(limit, eligible) tasks, each with its generated token |
| `Statements.CollectClaims` | src/store/claim.rs:65-69 | one row per picked task, ordered by (scheduled_for, id), with the task's new number, token and deadline |
| `Statements.ConvertsIff` | src/store/claim.rs:88-113 | the returned rows convert iff every attempt number is positive and every lease interval passes its CHECK |
| `Statements.ClaimsConvert` | src/store/claim.rs:88-113 | so every claimed row converts, in order, to a claim with a handler and a future deadline |
| `Columns.ClaimRunColumns` | src/store/claim.rs:43-52 | a claimed row is running, counts one attempt more, and has worker, token, start and deadline; every other row is equal |
| `Columns.ClaimAttemptColumns` | src/store/claim.rs:58-65 | each claim adds one attempt with the row's new number and lease; every other attempt is equal |
| `Columns.ClaimsMatchRows` | src/store/claim.rs:65-69 | what a worker is handed is what its row then holds, in the order of the final SELECT |
| `Statements.GuardIsRecorded` | src/store/reap.rs:30-59 | the guard computed from the batch-wide UPDATE is each task's own guard |
| `Statements.RecoverStep` | src/store/reap.rs:21-63 | the statements of a recovery are its step |
| `Statements.RecoverMoves` | src/store/reap.rs:37-60 | exactly the guarded tasks leave running, for pending or failed |
| `Statements.Summarize` | src/store/reap.rs:75-87 | the counts are the numbers of requeued and failed rows; the error is returned iff another state occurs |
| `Statements.ReturnedStates` | src/store/reap.rs:59-62 | one returned row for each moved task, with its new state |
| `Columns.RecoverTakesFirst` | src/store/reap.rs:22-30 | the batch is the first running unlocked tasks past their deadline, by deadline and id |
| `Columns.RecoverMovesColumns` | src/store/reap.rs:30-36 | of those exactly the ones move whose last attempt the snapshot shows open under the row's token |
| `Columns.RecoverRunColumns` | src/store/reap.rs:37-60 | a moved task is pending and claimable at once if attempts remain, else failed with the exhaustion text; every other row is equal |
| `Columns.RecoverAttemptColumns` | src/store/reap.rs:30-36 | its last attempt is expired with its text; every other attempt is equal |
| `Statements.CancelPendingStep` | src/queue.rs:198-209 | cancelling a pending task writes its row only |
| `Statements.CancelRunningStep` | src/queue.rs:187-209 | cancelling a running task closes its attempt and ends the row, or neither |
| `Columns.CancelColumns` | src/queue.rs:181-210 | every column CANCEL writes on the row and on the open attempt, and exactly when |
| `Statements.PruneStep` | src/queue.rs:238-255 | a prune removes the doomed terminal rows with exactly their attempts |
| `Columns.PruneTakesFirst` | src/queue.rs:238-251 | the doomed rows are the first terminal unlocked ones that finished before the cutoff, by end and id |
| `Columns.PruneColumns` | src/queue.rs:252-254 | exactly they go, with exactly their attempts, and nothing else changes |
| `Statements.DedupStep` | src/queue.rs:140-142 | a taken deduplication key has one holder, and enqueueing again changes no task |
| `Statements.EnqueueStep` | src/queue.rs:133-143 | with a free key one pending task is added |
| `Columns.EnqueueColumns` | src/queue.rs:133-143 | every column of the new row: scheduled and available at the time asked for or at now(), all others the caller's; nothing if the key is taken |
| `Statements.PickEarliest` | src/store/materialize.rs:30-35 | a due unlocked job with the least cursor |
| `Statements.MaterializeStep` | src/store/materialize.rs:84-113 | the writes of a tick for each cron answer are its step |
| `Columns.MaterializeColumns` | src/store/materialize.rs:36-43 | every column of the inserted task is the job's, at its slot with priority 0; the cursor or the flag is all that changes of the job |
| `Columns.DueColumns` | src/store/materialize.rs:30-35 | which jobs are due, and which one a tick may take |
| `Statements.MaterializeLeavesDue` | src/store/materialize.rs:84-113 | a processed tick takes exactly one job out of the due set and touches no other |
| `Drain.MaterializeHandles` | src/store/materialize.rs:85-112 | a processed tick leaves a task for the slot and moves the cursor on, or pauses the corrupt job, and keeps all tasks |
| `Drain.DrainInv` | src/store/materialize.rs:63-72 | the invariant holds after every tick of a drain |
| `Drain.DrainHandles` | src/store/materialize.rs:74-117 | with any clocks and locks: each tick takes exactly its job out of its due set, and the slot's task is there to the end of the drain |
| `Drain.DrainKeepsTasks` | src/store/materialize.rs:36-41 | a drain alters no task that was there |
| `Drain.DrainContinuesRun` | src/store/materialize.rs:63-72 | a drain from the last state of a run continues that run |
| `Drain.FixedDrain` | src/store/materialize.rs:63-72 | at a fixed clock: min(n, 100) jobs handled, each once, earliest first, and none left below 100; or the loop stopped at the named stuck job, which is still due, with all jobs before it handled and none after it |
| `Drain.FixedEffect` | src/store/materialize.rs:63-117 | at a fixed clock: exactly the picked jobs are handled, all other jobs and all tasks are unchanged |
| `Drain.ReachDecides` | src/store/materialize.rs:63-72 | a stuck job with fewer than 100 healthy due jobs up to its cursor stops every drain; with at least 100 before every stuck job none stops |
| `Drain.DrainSucceedsIff` | src/store/materialize.rs:63-72 | every drain from a state ends without error iff each job without a next occurrence has at least 100 healthy due jobs strictly before it |
| `Drain.DrainFailsIff` | src/store/materialize.rs:63-72 | every drain from a state ends in error iff some job without a next occurrence has fewer than 100 healthy due jobs up to and including its cursor |
| `Drain.PlayOn` | src/store/materialize.rs:30-35 | from any state there is a drain that breaks all ties for a stuck job, and one that breaks all against it |
| `Drain.SmallDrain` | src/store/materialize.rs:63-72 | with at most 100 due jobs the loop fails iff one of them lacks a next occurrence |
| `Drain.UntiedDecided` | src/store/materialize.rs:30-35 | if no stuck job shares its cursor with a healthy one, exactly one of the two conditions holds |
| `Drain.FrontIsForever` | src/store/materialize.rs:86-88 | a job in front whose cron is exhausted stays in front through any run that leaves it alone, and none of its slots is ever inserted |
| `Drain.StuckJobStopsDrains` | src/store/materialize.rs:54-72 | then every drain, at any later state, that does not find it locked handles no job and ends in its error |
| `Drain.StuckJobBlocks` | src/store/materialize.rs:54-62 | a run that registers two jobs while both have a next occurrence, after which the tick on the first fails and changes nothing while the second stays due |
| `Statements.EnsureExisting` | src/jobs.rs:139-168 | registering a taken name rewrites the configuration of its one job and keeps id, cursor and flag |
| `Statements.EnsureNew` | src/jobs.rs:139-168 | registering a free name adds one job at the computed cursor |
| `Columns.EnsureColumns` | src/jobs.rs:148-165 | the columns a re-registration stores and the two it keeps; a new job gets the computed cursor |
| `Columns.CreateColumns` | src/jobs.rs:118-131 | a new job under a free name only |
| `Columns.RescheduleColumns` | src/jobs.rs:173-212 | the cursor of the one job, nothing else |
| `Columns.DeleteAndPauseColumns` | src/jobs.rs:251-268 | the flag of the one job, or its row; tasks stay |
| `Store.Store.constructor` | migrations/0001_create_scheduler_tables/up.sql:16-42 | empty tables satisfy the invariant |
| `Store.Store.RecordAttempt` | src/store/finalize.rs:21-25 | afterwards no open attempt has the token, all other rows are equal, and the count returned is the number of rows that changed |
| `Store.Store.RenewAttempt` | src/store/finalize.rs:70-73 | the open attempts with the token stay open until the new deadline, all other rows are equal, and the count is theirs |
| `Store.Store.FinalizeRun` | src/store/finalize.rs:110-156 | from any valid state: never an error; `Applied` iff running under this token before its deadline, and then the row ends as reported; otherwise no row changes and the answer is what IS_TERMINAL read; the new state is that of the protocol step |
| `Store.Store.FailRun` | src/store/finalize.rs:158-204 | the same: the answered time is the row's new availability, now plus the backoff; neither the attempt count error nor the invalid-state error is returned |
| `Store.Store.RenewLease` | src/store/finalize.rs:206-235 | the same: the answered deadline is the one the row and its open attempt now have |
| `Store.Store.ClaimBatch` | src/store/claim.rs:33-113 | claims exactly the best min(limit, eligible) unlocked tasks by priority descending, availability, id, with fresh tokens, and returns them in order; neither conversion error is returned |
| `Store.Store.RecoverExpired` | src/store/reap.rs:21-88 | takes the earliest overdue unlocked batch; each moved task is claimable at once or failed, column by column; requeued + failed is exactly the number of tasks that left running |
| `Store.Store.CancelTask` | src/queue.rs:181-236 | `Cancelled` iff pending, or running with its attempt in the snapshot, and then the row's columns; otherwise nothing changes and the answer is what EXISTS reads |
| `Store.Store.PruneTerminal` | src/queue.rs:238-271 | deletes exactly the first terminal rows before the cutoff, by end and id, with exactly their attempts, and returns how many |
| `Store.Store.EnqueueTask` | src/queue.rs:133-179 | returns the one present holder of the key with nothing altered, or adds exactly one new task, column by column |
| `Store.Store.MaterializeOne` | src/store/materialize.rs:74-117 | Idle iff nothing is due; else one step on an earliest due job that inserts the task with the job's columns and moves the cursor, or pauses the corrupt job; an error iff it has no next occurrence, and then nothing changed |
| `Store.Store.MaterializeDueJobs` | src/store/materialize.rs:63-72 | performs a whole drain with any clocks and locks per tick: Ok with the number of jobs handled after 100 ticks or with nothing due, an error iff the next job has no next occurrence |
| `Store.Store.EnsureJob` | src/jobs.rs:139-168 | a taken name keeps id, cursor and flag and gets each configured column; a free one gets the computed cursor; an error iff there is no next occurrence, and then nothing changes |
| `Store.Store.CreateJob` | src/jobs.rs:118-131 | adds the job at the computed cursor, or fails without a change for a missing occurrence or a taken name |
| `Store.Store.Reschedule` | src/jobs.rs:173-212 | None iff the job is absent; moves the cursor and nothing else; CorruptJob iff the stored cron is corrupt |
| `Store.Store.SetPaused` | src/jobs.rs:251-261 | sets the flag of the one job and says whether it is there |
| `Store.Store.DeleteJob` | src/jobs.rs:263-268 | removes the one job, leaves all tasks, and says whether it was there |
| `Worker.Worker.DispatchAll` | src/runtime/worker.rs:192-204 | held permits never exceed the limit under any interleaved releases, and grow by exactly the tasks dispatched less the handlers that ended; succeeds when tasks fit the free permits and have handlers |
| `Worker.Worker.ClaimAndDispatch` | src/runtime/worker.rs:176-206 | claims exactly the best tasks that fit the free permits, by priority, availability and id, and dispatches each; neither the capacity error nor the missing-handler error is returned |
| `Heartbeat.IntervalIsAThird` | src/runtime/worker.rs:281-288 | for every valid lease, 0 < h and 3h <= lease < 3h + 3 nanoseconds |
| `Heartbeat.Dispatch` | src/runtime/worker.rs:236-272 | the loop stops at the first lost lease and computes the fold of its rounds |
| `Heartbeat.BelievedNeverExceedsStored` | src/runtime/worker.rs:249-263 | the local deadline never exceeds the stored one, whatever responses are lost |
| `Heartbeat.Unheard` | src/runtime/worker.rs:257-270 | a worker that hears nothing gives up exactly when the deadline it knows has passed; until then each of its renewals that reaches the database commits |
| `Heartbeat.NthTryInTimeIff` | src/runtime/worker.rs:236-270 | after any failed rounds, renewals that committed unheard included, the next try keeps the lease iff the worker has not given up and the try comes before the deadline of the last renewal that committed |
| `Heartbeat.NthTrySinceCommitIff` | src/runtime/worker.rs:236-270 | the n-th try since the last committed renewal, which was heard, keeps the lease iff n*h plus all latencies is below the lease |
| `Heartbeat.NthTrySinceUnheardIff` | src/runtime/worker.rs:257-270 | if that renewal went unheard: iff the same holds and the worker has not passed the older deadline it believes in |
| `Heartbeat.LeavesLoopBy` | src/runtime/worker.rs:266-269 | a worker that loses its lease leaves the loop within one interval and the latencies of one round after the deadline it last believed in |
| `Heartbeat.ShortRoundsKeepLease` | src/runtime/worker.rs:236-270 | a handler whose every round is shorter than its lease never loses it |
| `Heartbeat.GentleRoundsKeepLease` | src/runtime/worker.rs:281-288 | isolated failed rounds are survived if the latencies of each pair of rounds total less than a third of the lease |
| `Tending.TableFollowsHeart` | src/runtime/worker.rs:236-270 | the loop's renewals placed in a run: while each try is in time, the table holds the lease through all interleavings, with exactly the deadline of the loop's own account |
| `Tending.ShortHeartKeepsLease` | src/runtime/worker.rs:236-270 | a worker whose every round is shorter than its lease keeps it in the database, whatever others do |
| `Tending.GentleHeartKeepsLease` | src/runtime/worker.rs:281-288 | the same where isolated renewals fail or go unheard |
| `Holders.HearingKeeps` | src/runtime/worker.rs:249-256 | a response delivered after any other acts, in any order, is still sound to believe |
| `Holders.GrantsAreClaims` | src/runtime/worker.rs:225-237 | a holder starts with the token and the deadline that the claimed row then has |
| `Holders.WorldStepKeeps` | src/runtime/worker.rs:237-270 | any act of any holder, with its response lost, late or heard at once, keeps all beliefs sound |
| `Holders.HistoryInv` | src/runtime/worker.rs:237-270 | so do all histories |
| `Holders.OneAcceptableHolder` | src/store/finalize.rs:16-17 | of all holders of a task, stalled and dead ones included, at most one is acceptable |
| `Holders.TrustedMeansAccepted` | src/runtime/worker.rs:266-269 | a holder whose token is current and whose local deadline has not passed is accepted by the database |
| `Holders.SuccessorStartsLate` | docs/Concurrency.md:96-107 | the attempt after an expired holder's own starts no earlier than the deadline that holder believes in |
| `Holders.OverlapIsBounded` | docs/Concurrency.md:96-107 | so an expired worker is in its loop for less than one interval and the latencies of one round after its replacement has started |
| `Durations.MicrosRoundTrip` | src/models.rs:228-230 | the microsecond count determines the duration iff it has no nanosecond remainder |
| `Durations.LeaseRoundTrip` | src/models.rs:174-188 | a lease is accepted iff it is positive whole microseconds within i64, passes its CHECK, and comes back as the duration that went in |
| `Durations.BackoffRoundTrip` | src/models.rs:110-149 | the same for backoffs, zero included |
| `Durations.RefusedDurations` | src/models.rs:116-188 | which duration is refused for which reason |
| `Durations.RefusedIntervals` | src/models.rs:127-144 | which stored interval is refused for which reason |
| `Durations.ChecksMatchReaders` | migrations/0001_create_scheduler_tables/up.sql:86-97 | the SQL CHECKs admit exactly the intervals the read boundary accepts |
| `Durations.MaxAttemptsRoundTrip` | src/models.rs:88-95 | accepted iff 1 <= v <= i32::MAX, and then read back as itself |

## Left out

- The cron engine behind src/cron.rs: only "strictly after, or no answer, or does not parse" is kept.
- src/admin.rs, src/pool.rs, src/metrics.rs, src/schema.rs, src/runtime/health.rs, src/runtime/builder.rs: routes, adapters, counters and plain data.
- String validation of names, worker ids and keys, JSON payloads, and the columns `created_at` and `updated_at`: opaque or not kept.
- `get` and `list` of src/jobs.rs: plain reads.
- `task_attempts` of src/store/inspect.rs: a plain projection of the log.
- `pg_notify`, connection failures inside the store, and limits above i64: not modelled.
- Several reads of `clock_timestamp()` in one statement (src/store/claim.rs:49-50): one instant stands for all; `Instants` has one for the row and one for the attempt.
- The rows a batch locks are those of the current state: a row that changes between the snapshot of a batch and its lock is covered in `Protocol`, where any admitted rows may be picked, but not in the "best rows" clauses of `Store`.
- Store.Store.MaterializeDueJobs: transactions of others between two ticks are not interleaved in the method; the theorems of `Schedule` and `Drain.FrontIsForever` cover any interleaving.
- Holders.HistoryInv: snapshots of cancel and recover are unrestricted there, which only allows more histories.
- `finalize_handler` (a choice between finalize and fail by the handler's result) and `claim_one` (a claim with limit 1): no logic of their own.
- Worker shutdown, select fairness and handler bodies: an ending handler is a release of its permit, an abandoned claim is a holder that is forgotten or never acts.
- Clock skew between host and database, backward clock jumps, UUID collisions and timestamp overflow.
