/**
 The rows of `scheduler_runs`, `scheduler_run_attempts` and `scheduler_jobs`, with the
 row-local CHECK constraints that PostgreSQL enforces on them.

 Identifiers and tokens are opaque values with equality; run ids also carry the total
 order the queries sort by.  Times and durations are microseconds.  The columns
 `created_at` and `updated_at` are not read by any transition and are not kept.
 */
module Rows {

  type Time = int
  type RunId = nat
  type JobId = nat
  type Token = nat

  datatype Option<+T> = None | Some(value: T)

  datatype Error =
    | Invariant(what: string)
    | CronFailure
    | CorruptJob
    | DuplicateName

  datatype Result<+T> = Ok(value: T) | Err(error: Error)

  datatype RunState = Pending | Running | Completed | Failed | Cancelled

  datatype AttemptOutcome = Completed | Failed | Expired | Cancelled

  /** The columns of a task that are written once, by the INSERT that creates it. */
  datatype Spec = Spec(
    jobId: Option<JobId>,
    jobName: string,
    jobArgs: string,
    scheduledFor: Time,
    priority: int,
    maxAttempts: int,
    leaseDuration: int,
    retryBackoff: int,
    dedupKey: Option<string>)

  datatype Run = Run(
    spec: Spec,
    state: RunState,
    attemptCount: nat,
    availableAt: Time,
    workerId: Option<string>,
    leaseToken: Option<Token>,
    leaseExpiresAt: Option<Time>,
    startedAt: Option<Time>,
    finishedAt: Option<Time>,
    lastError: Option<string>)

  datatype Attempt = Attempt(
    workerId: string,
    leaseToken: Token,
    startedAt: Time,
    leaseExpiresAt: Time,
    finishedAt: Option<Time>,
    outcome: Option<AttemptOutcome>,
    error: Option<string>)

  /** Primary key of `scheduler_run_attempts`. */
  datatype Key = Key(run: RunId, number: nat)

  datatype Job = Job(
    name: string,
    cron: string,
    args: string,
    nextRunAt: Time,
    leaseDuration: int,
    maxAttempts: int,
    retryBackoff: int,
    paused: bool)

  predicate PolicyCheck(maxAttempts: int, leaseDuration: int, retryBackoff: int) {
    maxAttempts >= 1 && leaseDuration > 0 && retryBackoff >= 0
  }

  /** The duration and attempt CHECKs that depend only on the immutable columns. */
  predicate SpecCheck(s: Spec) {
    PolicyCheck(s.maxAttempts, s.leaseDuration, s.retryBackoff)
  }

  predicate Terminal(r: Run) {
    r.state == RunState.Completed || r.state == RunState.Failed || r.state == RunState.Cancelled
  }

  predicate NoLease(r: Run) {
    r.workerId.None? && r.leaseToken.None? && r.leaseExpiresAt.None? && r.startedAt.None?
  }

  /** `scheduler_runs_state_check`. */
  predicate StateCheck(r: Run) {
    match r.state
    case Pending => NoLease(r) && r.finishedAt.None? && r.lastError.None?
    case Running =>
      && r.workerId.Some? && r.leaseToken.Some? && r.leaseExpiresAt.Some? && r.startedAt.Some?
      && r.leaseExpiresAt.value > r.startedAt.value
      && r.finishedAt.None? && r.lastError.None?
    case Completed => NoLease(r) && r.finishedAt.Some? && r.lastError.None?
    case Failed => NoLease(r) && r.finishedAt.Some? && r.lastError.Some?
    case Cancelled => NoLease(r) && r.finishedAt.Some? && r.lastError.None?
  }

  /** All CHECK constraints of `scheduler_runs` that the model's columns can state. */
  predicate RowCheck(r: Run) {
    && SpecCheck(r.spec)
    && r.attemptCount <= r.spec.maxAttempts
    && (r.state == RunState.Pending ==> r.attemptCount < r.spec.maxAttempts)
    && StateCheck(r)
  }

  /** All CHECK constraints of `scheduler_run_attempts`. */
  predicate AttemptCheck(a: Attempt) {
    && a.leaseExpiresAt > a.startedAt
    && (if a.outcome.None? then a.finishedAt.None? && a.error.None? else a.finishedAt.Some?)
    && (a.error.Some? ==>
          a.outcome == Some(AttemptOutcome.Failed) || a.outcome == Some(AttemptOutcome.Expired))
  }

  predicate JobCheck(j: Job) {
    PolicyCheck(j.maxAttempts, j.leaseDuration, j.retryBackoff)
  }
}
