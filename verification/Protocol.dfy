/**
 Every transaction of the scheduler as one step of a state machine, and the proof that
 each step keeps the cross-table invariant and never undoes what is settled.

 An event carries the two clocks of its transaction: `txNow` is `now()`, the start of
 the transaction, and `now` is `clock_timestamp()`.  Which rows a batch picks is left
 open here (any rows its WHERE clause admits), so the results cover every effect of
 row locks, SKIP LOCKED and LIMIT; `Store` fixes the choice.
 */
module Protocol {
  import opened Rows
  import opened Lease
  import opened Tables

  /** One answer of the cron engine: the stored text does not parse, there is no next
      occurrence, or the next one is at a given instant. */
  datatype Cron = Corrupt | NoNext | NextAt(at: Time)

  datatype ScheduleUpdate = ResetFromNow(answer: Cron) | SetNextRunAt(at: Time)

  datatype Action =
    | Tick
    | Enqueue(newId: RunId, spec: Spec, at: Option<Time>)
    | Materialize(job: JobId, newId: RunId, answer: Cron)
    | Claim(worker: string, picked: map<RunId, Token>)
    | Renew(id: RunId, token: Token)
    | Finalize(id: RunId, token: Token, outcome: Outcome)
    | Fail(id: RunId, token: Token, error: string, retryable: bool)
    | Recover(batch: set<RunId>, snap: Db)
    | Cancel(id: RunId, snap: Db)
    | Prune(doomed: set<RunId>, before: Time)
    | CreateJob(newJob: JobId, config: Job, answer: Cron)
    | EnsureJob(newJob: JobId, config: Job, answer: Cron)
    | Reschedule(job: JobId, update: ScheduleUpdate)
    | SetPaused(job: JobId, paused: bool)
    | DeleteJob(job: JobId)

  datatype Event = Event(action: Action, txNow: Time, now: Time)

  // ---------------------------------------------------------------------------
  // What the lease transactions do to each task
  // ---------------------------------------------------------------------------

  predicate OpenWith(a: Attempt, token: Token) {
    a.leaseToken == token && a.outcome.None?
  }

  /**
   The attempts that a statement with snapshot `snap` closes for `token`: those its
   snapshot shows open and whose current version passes the recheck.
   */
  function Recorded(db: Db, snap: Db, token: Token): set<Key> {
    set k | k in snap.attempts && k in db.attempts
            && OpenWith(snap.attempts[k], token) && OpenWith(db.attempts[k], token)
  }

  /** `EXISTS (SELECT 1 FROM attempt WHERE attempt.run_id = r.id)` for a locked row. */
  predicate AttemptRecorded(db: Db, snap: Db, id: RunId)
    requires id in db.runs
  {
    && db.runs[id].leaseToken.Some?
    && exists k :: k in Recorded(db, snap, db.runs[id].leaseToken.value) && k.run == id
  }

  predicate Cancellable(db: Db, snap: Db, id: RunId) {
    && id in snap.runs && id in db.runs
    && (|| db.runs[id].state == RunState.Pending
        || (db.runs[id].state == RunState.Running && AttemptRecorded(db, snap, id)))
  }

  predicate LiveIn(db: Db, id: RunId, token: Token, now: Time) {
    id in db.runs && Live(db.runs[id], token, now)
  }

  function Moves(db: Db, e: Event): map<RunId, Move> {
    match e.action
    case Claim(worker, picked) => map id | id in picked :: Start(worker, picked[id])
    case Renew(id, token) => if LiveIn(db, id, token, e.now) then map[id := Extend(token)] else map[]
    case Finalize(id, token, outcome) =>
      if LiveIn(db, id, token, e.now) then map[id := Finish(token, outcome)] else map[]
    case Fail(id, token, error, retryable) =>
      if LiveIn(db, id, token, e.now) then map[id := Fault(token, error, retryable)] else map[]
    case Recover(batch, snap) =>
      map id | id in batch && id in db.runs && AttemptRecorded(db, snap, id) :: Expire
    case Cancel(id, snap) => if Cancellable(db, snap, id) then map[id := Abort] else map[]
    case _ => map[]
  }

  predicate LeaseAction(a: Action) {
    a.Claim? || a.Renew? || a.Finalize? || a.Fail? || a.Recover? || a.Cancel?
  }

  // ---------------------------------------------------------------------------
  // The step function
  // ---------------------------------------------------------------------------

  function Advance(db: Db, now: Time): Db {
    db.(clock := now)
  }

  /** The row ENQUEUE inserts: COALESCE($3, now()) is both schedule and availability. */
  function EnqueuedSpec(spec: Spec, at: Option<Time>, txNow: Time): Spec {
    spec.(jobId := None, scheduledFor := if at.Some? then at.value else txNow)
  }

  predicate DedupIn(runs: map<RunId, Run>, spec: Spec) {
    exists i :: i in runs && SameDedup(Newborn(spec, 0), runs[i])
  }

  predicate DedupTaken(db: Db, spec: Spec) {
    DedupIn(db.runs, spec)
  }

  /** The task snapshot INSERT_RUN takes of a due schedule. */
  function OccurrenceSpec(job: JobId, j: Job): Spec {
    Spec(Some(job), j.name, j.args, j.nextRunAt, 0, j.maxAttempts, j.leaseDuration, j.retryBackoff, None)
  }

  predicate OccurrenceIn(runs: map<RunId, Run>, spec: Spec) {
    exists i :: i in runs && SameOccurrence(Newborn(spec, 0), runs[i])
  }

  predicate OccurrenceTaken(db: Db, spec: Spec) {
    OccurrenceIn(db.runs, spec)
  }

  predicate Due(j: Job, txNow: Time) {
    j.nextRunAt <= txNow && !j.paused
  }

  predicate NameTaken(db: Db, name: string) {
    exists i :: i in db.jobs && db.jobs[i].name == name
  }

  function Reconfigured(j: Job, config: Job): Job {
    j.(cron := config.cron, args := config.args, leaseDuration := config.leaseDuration,
       maxAttempts := config.maxAttempts, retryBackoff := config.retryBackoff)
  }

  function AfterMaterialize(db: Db, job: JobId, newId: RunId, answer: Cron, now: Time): Db {
    if job !in db.jobs then Advance(db, now)
    else
      var j := db.jobs[job];
      match answer
      case Corrupt => WithJobs(db, db.jobs[job := j.(paused := true)], now)
      case NoNext => Advance(db, now)
      case NextAt(at) =>
        var spec := OccurrenceSpec(job, j);
        var inserted :=
          if OccurrenceTaken(db, spec) then db else Insert(db, newId, spec, j.nextRunAt, now);
        WithJobs(inserted, db.jobs[job := j.(nextRunAt := at)], now)
  }

  function AfterEnsure(db: Db, newJob: JobId, config: Job, answer: Cron, now: Time): Db {
    match answer
    case NextAt(at) =>
      if NameTaken(db, config.name) then
        WithJobs(db, map i | i in db.jobs ::
                       if db.jobs[i].name == config.name then Reconfigured(db.jobs[i], config)
                       else db.jobs[i], now)
      else WithJobs(db, db.jobs[newJob := config.(nextRunAt := at)], now)
    case _ => Advance(db, now)
  }

  function AfterReschedule(db: Db, job: JobId, update: ScheduleUpdate, now: Time): Db {
    if job !in db.jobs then Advance(db, now)
    else
      match update
      case SetNextRunAt(at) => WithJobs(db, db.jobs[job := db.jobs[job].(nextRunAt := at)], now)
      case ResetFromNow(NextAt(at)) =>
        WithJobs(db, db.jobs[job := db.jobs[job].(nextRunAt := at)], now)
      case ResetFromNow(_) => Advance(db, now)
  }

  function Next(db: Db, e: Event): Db {
    match e.action
    case Tick => Advance(db, e.now)
    case Enqueue(newId, spec, at) =>
      var s := EnqueuedSpec(spec, at, e.txNow);
      if DedupTaken(db, s) then Advance(db, e.now) else Insert(db, newId, s, s.scheduledFor, e.now)
    case Materialize(job, newId, answer) => AfterMaterialize(db, job, newId, answer, e.now)
    case Prune(doomed, _) => Delete(db, doomed, e.now)
    case CreateJob(newJob, config, answer) =>
      if answer.NextAt? && !NameTaken(db, config.name)
      then WithJobs(db, db.jobs[newJob := config.(nextRunAt := answer.at)], e.now)
      else Advance(db, e.now)
    case EnsureJob(newJob, config, answer) => AfterEnsure(db, newJob, config, answer, e.now)
    case Reschedule(job, update) => AfterReschedule(db, job, update, e.now)
    case SetPaused(job, paused) =>
      if job in db.jobs
      then WithJobs(db, db.jobs[job := db.jobs[job].(paused := paused)], e.now)
      else Advance(db, e.now)
    case DeleteJob(job) => WithJobs(db, db.jobs - {job}, e.now)
    case _ => Perform(db, Moves(db, e), e.now)
  }

  /** `next_after` answers strictly later than it was asked about, or not at all. */
  predicate AnswerOk(answer: Cron, txNow: Time) {
    answer.NextAt? ==> answer.at > txNow
  }

  /** The rows a batch may pick, fresh identifiers, and the order of the clocks. */
  ghost predicate Enabled(db: Db, e: Event) {
    && db.clock <= e.now && e.txNow <= e.now
    && match e.action
       case Enqueue(newId, spec, _) => newId !in db.created && SpecCheck(spec)
       case Materialize(job, newId, answer) =>
         && job in db.jobs && Due(db.jobs[job], e.txNow)
         && newId !in db.created && AnswerOk(answer, e.txNow)
       case Claim(_, picked) =>
         && (forall id :: id in picked ==>
               && id in db.runs && db.runs[id].state == RunState.Pending
               && db.runs[id].availableAt <= e.txNow && picked[id] !in db.issued)
         && (forall i, j | i in picked && j in picked :: picked[i] == picked[j] ==> i == j)
       case Recover(batch, _) => forall id :: id in batch ==> id in db.runs && Overdue(db.runs[id], e.now)
       case Prune(doomed, before) =>
         forall id :: id in doomed ==>
           && id in db.runs && Terminal(db.runs[id])
           && db.runs[id].finishedAt.Some? && db.runs[id].finishedAt.value < before
       case CreateJob(newJob, config, answer) =>
         newJob !in db.jobsCreated && JobCheck(config) && AnswerOk(answer, e.txNow) && !answer.Corrupt?
       case EnsureJob(newJob, config, answer) =>
         newJob !in db.jobsCreated && JobCheck(config) && AnswerOk(answer, e.txNow) && !answer.Corrupt?
       case Reschedule(_, ResetFromNow(answer)) => AnswerOk(answer, e.txNow)
       case _ => true
  }

  // ---------------------------------------------------------------------------
  // Every step keeps the invariant
  // ---------------------------------------------------------------------------

  lemma MovesAreLegal(db: Db, e: Event)
    requires Enabled(db, e)
    ensures MovesLegal(db, Moves(db, e), e.now)
  {
  }

  lemma AdvanceKeeps(db: Db, now: Time)
    requires Inv(db) && db.clock <= now
    ensures Inv(Advance(db, now)) && Evolves(db, Advance(db, now))
  {
    WithJobsKeeps(db, db.jobs, now);
    assert db.jobsCreated + db.jobs.Keys == db.jobsCreated;
  }

  lemma InsertKeeps(db: Db, id: RunId, spec: Spec, availableAt: Time, now: Time)
    requires Inv(db) && CanInsert(db, id, spec, now)
    ensures Inv(Insert(db, id, spec, availableAt, now)) && Evolves(db, Insert(db, id, spec, availableAt, now))
  {
    InsertInv(db, id, spec, availableAt, now);
    UntouchedEvolves(db, Insert(db, id, spec, availableAt, now));
  }

  lemma DeleteKeeps(db: Db, doomed: set<RunId>, now: Time)
    requires Inv(db) && db.clock <= now
    ensures Inv(Delete(db, doomed, now)) && Evolves(db, Delete(db, doomed, now))
  {
    DeleteInv(db, doomed, now);
    UntouchedEvolves(db, Delete(db, doomed, now));
  }

  lemma WithJobsKeeps(db: Db, jobs: map<JobId, Job>, now: Time)
    requires Inv(db) && db.clock <= now
    requires forall j :: j in jobs ==> JobCheck(jobs[j])
    requires forall i, j :: i in jobs && j in jobs && jobs[i].name == jobs[j].name ==> i == j
    ensures Inv(WithJobs(db, jobs, now)) && Evolves(db, WithJobs(db, jobs, now))
  {
    WithJobsInv(db, jobs, now);
    UntouchedEvolves(db, WithJobs(db, jobs, now));
  }

  /** Writing one job row whose name no other job has. */
  lemma WithJobKeeps(db: Db, job: JobId, j: Job, now: Time)
    requires Inv(db) && db.clock <= now && JobCheck(j)
    requires forall i :: i in db.jobs && db.jobs[i].name == j.name ==> i == job
    ensures Inv(WithJobs(db, db.jobs[job := j], now)) && Evolves(db, WithJobs(db, db.jobs[job := j], now))
  {
    hide Contiguous, TasksOk, TokensDistinct, RunsUnique, Accounted, Evolves, WithJobs;
    WithJobsKeeps(db, db.jobs[job := j], now);
  }

  /** Changing a job that exists, under its own name. */
  lemma UpdateJobKeeps(db: Db, job: JobId, j: Job, now: Time)
    requires Inv(db) && db.clock <= now && JobCheck(j) && job in db.jobs && j.name == db.jobs[job].name
    ensures Inv(WithJobs(db, db.jobs[job := j], now)) && Evolves(db, WithJobs(db, db.jobs[job := j], now))
  {
    hide Contiguous, TasksOk, TokensDistinct, RunsUnique, Accounted, Evolves, WithJobs;
    WithJobKeeps(db, job, j, now);
  }

  lemma JobsAreOk(db: Db)
    requires Inv(db)
    ensures JobsOk(db)
  {
  }

  lemma JobIsOk(db: Db, job: JobId)
    requires Inv(db) && job in db.jobs
    ensures JobCheck(db.jobs[job])
  {
  }

  lemma MaterializeKeeps(db: Db, job: JobId, newId: RunId, answer: Cron, now: Time)
    requires Inv(db) && db.clock <= now && job in db.jobs && newId !in db.created
    ensures Inv(AfterMaterialize(db, job, newId, answer, now))
    ensures Evolves(db, AfterMaterialize(db, job, newId, answer, now))
  {
    JobIsOk(db, job);
    var j := db.jobs[job];
    match answer
    case Corrupt => UpdateJobKeeps(db, job, j.(paused := true), now);
    case NoNext => AdvanceKeeps(db, now);
    case NextAt(at) =>
      var spec := OccurrenceSpec(job, j);
      if OccurrenceTaken(db, spec) {
        UpdateJobKeeps(db, job, j.(nextRunAt := at), now);
      } else {
        OccurrenceCanInsert(db, job, newId, now);
        var mid := Insert(db, newId, spec, j.nextRunAt, now);
        InsertKeeps(db, newId, spec, j.nextRunAt, now);
        hide Inv;
        UpdateJobKeeps(mid, job, j.(nextRunAt := at), now);
        EvolvesTrans(db, mid, AfterMaterialize(db, job, newId, answer, now));
      }
  }

  lemma OccurrenceCanInsert(db: Db, job: JobId, newId: RunId, now: Time)
    requires JobsOk(db) && db.clock <= now && job in db.jobs && newId !in db.created
    requires !OccurrenceTaken(db, OccurrenceSpec(job, db.jobs[job]))
    ensures CanInsert(db, newId, OccurrenceSpec(job, db.jobs[job]), now)
  {
    var spec := OccurrenceSpec(job, db.jobs[job]);
    forall i | i in db.runs
      ensures !SameOccurrence(Newborn(spec, now), db.runs[i])
    {
      assert !SameOccurrence(Newborn(spec, 0), db.runs[i]);
    }
  }

  lemma EnqueueCanInsert(db: Db, e: Event)
    requires Enabled(db, e) && e.action.Enqueue?
    requires !DedupTaken(db, EnqueuedSpec(e.action.spec, e.action.at, e.txNow))
    ensures CanInsert(db, e.action.newId, EnqueuedSpec(e.action.spec, e.action.at, e.txNow), e.now)
  {
    var spec := EnqueuedSpec(e.action.spec, e.action.at, e.txNow);
    forall i | i in db.runs
      ensures !SameDedup(Newborn(spec, e.now), db.runs[i])
    {
      assert !SameDedup(Newborn(spec, 0), db.runs[i]);
    }
  }

  lemma EnsureKeeps(db: Db, newJob: JobId, config: Job, answer: Cron, now: Time)
    requires Inv(db) && db.clock <= now && newJob !in db.jobsCreated && JobCheck(config)
    ensures Inv(AfterEnsure(db, newJob, config, answer, now))
    ensures Evolves(db, AfterEnsure(db, newJob, config, answer, now))
  {
    hide Contiguous, TasksOk, TokensDistinct, RunsUnique, Accounted, Evolves, WithJobs;
    if !answer.NextAt? {
      AdvanceKeeps(db, now);
    } else if NameTaken(db, config.name) {
      WithJobsKeeps(db, map i | i in db.jobs ::
                      if db.jobs[i].name == config.name then Reconfigured(db.jobs[i], config)
                      else db.jobs[i], now);
    } else {
      WithJobKeeps(db, newJob, config.(nextRunAt := answer.at), now);
    }
  }

  lemma RescheduleKeeps(db: Db, job: JobId, update: ScheduleUpdate, now: Time)
    requires Inv(db) && db.clock <= now
    ensures Inv(AfterReschedule(db, job, update, now))
    ensures Evolves(db, AfterReschedule(db, job, update, now))
  {
    hide Inv, Evolves, WithJobs;
    if job !in db.jobs {
      AdvanceKeeps(db, now);
    } else {
      JobIsOk(db, job);
      match update
      case SetNextRunAt(at) => UpdateJobKeeps(db, job, db.jobs[job].(nextRunAt := at), now);
      case ResetFromNow(NextAt(at)) => UpdateJobKeeps(db, job, db.jobs[job].(nextRunAt := at), now);
      case ResetFromNow(_) => AdvanceKeeps(db, now);
    }
  }

  /** Any transaction, in any state that satisfies the invariant. */
  lemma StepKeeps(db: Db, e: Event)
    requires Inv(db) && Enabled(db, e)
    ensures Inv(Next(db, e)) && Evolves(db, Next(db, e))
  {
    hide Inv, Evolves, Perform, WithJobs, Insert, Delete, Moves, AfterMaterialize, AfterEnsure, AfterReschedule;
    match e.action
    case Tick => AdvanceKeeps(db, e.now);
    case Enqueue(newId, spec, at) =>
      var s := EnqueuedSpec(spec, at, e.txNow);
      if DedupTaken(db, s) {
        AdvanceKeeps(db, e.now);
      } else {
        EnqueueCanInsert(db, e);
        InsertKeeps(db, newId, s, s.scheduledFor, e.now);
      }
    case Materialize(job, newId, answer) => MaterializeKeeps(db, job, newId, answer, e.now);
    case Prune(doomed, _) => DeleteKeeps(db, doomed, e.now);
    case CreateJob(newJob, config, answer) =>
      if answer.NextAt? && !NameTaken(db, config.name) {
        WithJobKeeps(db, newJob, config.(nextRunAt := answer.at), e.now);
      } else {
        AdvanceKeeps(db, e.now);
      }
    case EnsureJob(newJob, config, answer) => EnsureKeeps(db, newJob, config, answer, e.now);
    case Reschedule(job, update) => RescheduleKeeps(db, job, update, e.now);
    case SetPaused(job, paused) =>
      if job in db.jobs {
        JobIsOk(db, job);
        UpdateJobKeeps(db, job, db.jobs[job].(paused := paused), e.now);
      } else {
        AdvanceKeeps(db, e.now);
      }
    case DeleteJob(job) =>
      JobsAreOk(db);
      WithJobsKeeps(db, db.jobs - {job}, e.now);
    case _ =>
      MovesAreLegal(db, e);
      PerformEvolves(db, Moves(db, e), e.now);
  }

  /** Transactions without lease moves leave every surviving task alone. */
  lemma OthersUntouched(db: Db, e: Event, id: RunId)
    requires Accounted(db) && Enabled(db, e) && !LeaseAction(e.action)
    requires id in db.runs && id in Next(db, e).runs
    ensures Moves(db, e) == map[]
    ensures Next(db, e).runs[id] == db.runs[id]
    ensures forall k :: k in Next(db, e).attempts ==> k in db.attempts && Next(db, e).attempts[k] == db.attempts[k]
  {
    assert id in db.created;
  }

  /** Every transaction acts on every task that survives it as one legal move. */
  lemma StepRefinesMove(db: Db, e: Event, id: RunId)
    requires Inv(db) && Enabled(db, e)
    requires id in db.runs && id in Next(db, e).runs
    ensures Inv(Next(db, e))
    ensures Legal(db.runs[id], MoveOf(Moves(db, e), id), e.now)
    ensures View(Next(db, e), id) == ApplyMove(View(db, id), MoveOf(Moves(db, e), id), e.now)
  {
    StepKeeps(db, e);
    if LeaseAction(e.action) {
      LeaseStepRefines(db, e, id);
    } else {
      OthersUntouched(db, e, id);
      SameView(db, Next(db, e), id);
    }
  }

  lemma LeaseStepRefines(db: Db, e: Event, id: RunId)
    requires Contiguous(db) && TasksOk(db) && Enabled(db, e) && LeaseAction(e.action) && id in db.runs
    ensures Legal(db.runs[id], MoveOf(Moves(db, e), id), e.now)
    ensures Contiguous(Next(db, e)) && id in Next(db, e).runs
    ensures View(Next(db, e), id) == ApplyMove(View(db, id), MoveOf(Moves(db, e), id), e.now)
  {
    MovesAreLegal(db, e);
    PerformView(db, Moves(db, e), e.now, id);
  }
}
