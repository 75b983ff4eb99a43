/**
 Recurring schedules: who may move a cursor, and what becomes of the slots it leaves.
 */
module Schedule {
  import opened Rows
  import opened Lease
  import opened Tables
  import opened Protocol
  import opened Runs

  predicate Materializes(a: Action, job: JobId) { a.Materialize? && a.job == job }
  predicate Reschedules(a: Action, job: JobId) { a.Reschedule? && a.job == job }
  predicate SetsPause(a: Action, job: JobId) { a.SetPaused? && a.job == job }
  predicate Deletes(a: Action, job: JobId) { a.DeleteJob? && a.job == job }

  /** No event of the run from `i` up to `k` is one of the operations on `job` above. */
  predicate Quiet(events: seq<Event>, i: nat, k: nat, job: JobId)
    requires i <= k <= |events|
  {
    forall n :: i <= n < k ==>
      && !Materializes(events[n].action, job) && !Reschedules(events[n].action, job)
      && !SetsPause(events[n].action, job) && !Deletes(events[n].action, job)
  }

  predicate NeverRescheduled(events: seq<Event>, job: JobId) {
    forall n :: 0 <= n < |events| ==> !Reschedules(events[n].action, job)
  }

  // ---------------------------------------------------------------------------
  // The jobs table on its own
  // ---------------------------------------------------------------------------

  function JobsAfter(db: Db, e: Event): map<JobId, Job> {
    match e.action
    case Materialize(job, _, answer) =>
      if job !in db.jobs || answer.NoNext? then db.jobs
      else if answer.Corrupt? then db.jobs[job := db.jobs[job].(paused := true)]
      else db.jobs[job := db.jobs[job].(nextRunAt := answer.at)]
    case CreateJob(newJob, config, answer) =>
      if answer.NextAt? && !NameTaken(db, config.name)
      then db.jobs[newJob := config.(nextRunAt := answer.at)] else db.jobs
    case EnsureJob(newJob, config, answer) => AfterEnsure(db, newJob, config, answer, e.now).jobs
    case Reschedule(job, update) => AfterReschedule(db, job, update, e.now).jobs
    case SetPaused(job, paused) =>
      if job in db.jobs then db.jobs[job := db.jobs[job].(paused := paused)] else db.jobs
    case DeleteJob(job) => db.jobs - {job}
    case _ => db.jobs
  }

  lemma NextJobs(db: Db, e: Event)
    ensures Next(db, e).jobs == JobsAfter(db, e)
  {
    hide DedupTaken, OccurrenceTaken, NameTaken, AfterEnsure, AfterReschedule;
  }

  // ---------------------------------------------------------------------------
  // Who may change a schedule
  // ---------------------------------------------------------------------------

  /**
   A job keeps its name for life.  Its cursor moves only when it is materialized or
   rescheduled, its pause flag only by pause, resume or the corrupt-cron branch; it
   disappears only when deleted.  Registering it again changes neither.
   */
  lemma ScheduleChangesOnlyBy(db: Db, e: Event, job: JobId)
    requires JobsOk(db) && Enabled(db, e) && job in db.jobs
    ensures job !in Next(db, e).jobs <==> Deletes(e.action, job)
    ensures job in Next(db, e).jobs ==>
      var j, k := db.jobs[job], Next(db, e).jobs[job];
      && k.name == j.name
      && (k.nextRunAt != j.nextRunAt ==>
            || (Materializes(e.action, job) && e.action.answer.NextAt?)
            || Reschedules(e.action, job))
      && (k.paused != j.paused ==>
            || (Materializes(e.action, job) && e.action.answer.Corrupt?)
            || SetsPause(e.action, job))
  {
    hide Next, Enabled, JobsOk;
    JobLeavesOnlyBy(db, e, job);
    if job in Next(db, e).jobs {
      JobKeepsName(db, e, job);
      if !(Materializes(e.action, job) && e.action.answer.NextAt?) && !Reschedules(e.action, job) {
        CursorMovesOnlyBy(db, e, job);
      }
      if !(Materializes(e.action, job) && e.action.answer.Corrupt?) && !SetsPause(e.action, job) {
        PauseChangesOnlyBy(db, e, job);
      }
    }
  }

  lemma JobLeavesOnlyBy(db: Db, e: Event, job: JobId)
    requires job in db.jobs
    ensures job !in Next(db, e).jobs <==> Deletes(e.action, job)
  {
    NextJobs(db, e);
    hide Next;
  }

  lemma JobKeepsName(db: Db, e: Event, job: JobId)
    requires JobsOk(db) && Enabled(db, e) && job in db.jobs && job in Next(db, e).jobs
    ensures Next(db, e).jobs[job].name == db.jobs[job].name
  {
    NextJobs(db, e);
    hide Next, NameTaken;
    assert job in db.jobsCreated;
  }

  lemma CursorMovesOnlyBy(db: Db, e: Event, job: JobId)
    requires JobsOk(db) && Enabled(db, e) && job in db.jobs && job in Next(db, e).jobs
    requires !(Materializes(e.action, job) && e.action.answer.NextAt?) && !Reschedules(e.action, job)
    ensures Next(db, e).jobs[job].nextRunAt == db.jobs[job].nextRunAt
  {
    NextJobs(db, e);
    hide Next, NameTaken;
    assert job in db.jobsCreated;
  }

  lemma PauseChangesOnlyBy(db: Db, e: Event, job: JobId)
    requires JobsOk(db) && Enabled(db, e) && job in db.jobs && job in Next(db, e).jobs
    requires !(Materializes(e.action, job) && e.action.answer.Corrupt?) && !SetsPause(e.action, job)
    ensures Next(db, e).jobs[job].paused == db.jobs[job].paused
  {
    NextJobs(db, e);
    hide Next, NameTaken;
    assert job in db.jobsCreated;
  }

  lemma PerformKeepsJobs(db: Db, moves: map<RunId, Move>, now: Time)
    ensures Perform(db, moves, now).jobs == db.jobs
    ensures Perform(db, moves, now).jobsCreated == db.jobsCreated
    ensures Perform(db, moves, now).minted == db.minted
  {
  }

  /** A job id is never given to a second job. */
  lemma JobsAreNew(db: Db, e: Event, job: JobId)
    requires JobsOk(db) && Enabled(db, e) && job !in db.jobs && job in Next(db, e).jobs
    ensures job !in db.jobsCreated
    ensures e.action.CreateJob? || e.action.EnsureJob?
  {
    NextJobs(db, e);
    hide Next;
  }

  lemma {:induction false} JobStays(states: seq<Db>, events: seq<Event>, i: nat, k: nat, job: JobId)
    requires IsRun(states, events) && i <= k < |states|
    requires job in states[i].jobsCreated && job in states[k].jobs
    ensures job in states[i].jobs
    decreases k - i
  {
    hide Inv, Next, Enabled, Evolves;
    if i < k {
      RunInv(states, events, k - 1);
      assert StepAt(states, events, k - 1);
      JobsOf(states, events, k - 1);
      if job !in states[k - 1].jobs {
        JobsAreNew(states[k - 1], events[k - 1], job);
        CreatedGrows(states, events, i, k - 1);
      }
      JobStays(states, events, i, k - 1, job);
    }
  }

  lemma CreatedGrows(states: seq<Db>, events: seq<Event>, i: nat, k: nat)
    requires IsRun(states, events) && i <= k < |states|
    ensures states[i].jobsCreated <= states[k].jobsCreated && states[i].minted <= states[k].minted
  {
    hide Inv, Next, Enabled, TaskEvolves, IsRun, Contiguous;
    RunEvolves(states, events, i, k);
  }

  lemma JobsOf(states: seq<Db>, events: seq<Event>, i: nat)
    requires IsRun(states, events) && i < |states|
    ensures JobsOk(states[i])
  {
    hide JobsOk;
    RunInv(states, events, i);
  }

  lemma {:induction false} ScheduleIsStable(states: seq<Db>, events: seq<Event>, i: nat, k: nat, job: JobId)
    requires IsRun(states, events) && i <= k < |states| && job in states[i].jobs
    requires Quiet(events, i, k, job)
    ensures job in states[k].jobs
    ensures states[k].jobs[job].name == states[i].jobs[job].name
    ensures states[k].jobs[job].nextRunAt == states[i].jobs[job].nextRunAt
    ensures states[k].jobs[job].paused == states[i].jobs[job].paused
    decreases k - i
  {
    hide Next, Enabled, JobsOk;
    if i < k {
      ScheduleIsStable(states, events, i, k - 1, job);
      assert StepAt(states, events, k - 1);
      JobsOf(states, events, k - 1);
      ScheduleChangesOnlyBy(states[k - 1], events[k - 1], job);
    }
  }

  predicate IsOccurrence(r: Run, job: JobId, at: Time) {
    r.spec.jobId == Some(job) && r.spec.scheduledFor == at
  }

  predicate HasOccurrence(db: Db, job: JobId, at: Time) {
    exists id :: id in db.runs && IsOccurrence(db.runs[id], job, at)
  }

  /**
   A due slot survives any number of re-registrations: whatever else happened in
   between, the job can still be materialized, for that very slot, and the step inserts
   the occurrence unless its row is already there.
   */
  lemma DueSlotSurvives(states: seq<Db>, events: seq<Event>, i: nat, k: nat, job: JobId, e: Event, at: Time)
    requires IsRun(states, events) && i <= k < |states| && job in states[i].jobs
    requires Quiet(events, i, k, job)
    requires e.action.Materialize? && e.action.job == job && e.action.answer == NextAt(at)
    requires Due(states[i].jobs[job], e.txNow) && e.txNow <= e.now && states[k].clock <= e.now
    requires e.action.newId !in states[k].created && at > e.txNow
    ensures Enabled(states[k], e)
    ensures HasOccurrence(Next(states[k], e), job, states[i].jobs[job].nextRunAt)
    ensures Next(states[k], e).jobs[job].nextRunAt == at
  {
    ScheduleIsStable(states, events, i, k, job);
    hide IsRun;
    var db := states[k];
    var spec := OccurrenceSpec(job, db.jobs[job]);
    if OccurrenceTaken(db, spec) {
      var id :| id in db.runs && SameOccurrence(Newborn(spec, 0), db.runs[id]);
      assert IsOccurrence(Next(db, e).runs[id], job, states[i].jobs[job].nextRunAt);
    } else {
      assert IsOccurrence(Next(db, e).runs[e.action.newId], job, states[i].jobs[job].nextRunAt);
    }
  }

  // ---------------------------------------------------------------------------
  // Every slot a cursor leaves was materialized, once
  // ---------------------------------------------------------------------------

  /** No slot of the job was inserted twice, and all inserted ones lie behind its cursor. */
  ghost predicate MintedOnce(db: Db, job: JobId) {
    && (forall t: Time :: db.minted[Occurrence(job, t)] <= 1)
    && (job in db.jobs ==>
          forall t: Time :: Occurrence(job, t) in db.minted ==> t < db.jobs[job].nextRunAt)
  }

  /** What one materialization of the job itself does to its history. */
  lemma MaterializeMints(db: Db, e: Event, job: JobId)
    requires JobsOk(db) && Enabled(db, e) && Materializes(e.action, job) && MintedOnce(db, job)
    requires e.action.answer.NextAt?
    ensures job in db.jobs
    ensures Next(db, e).minted == db.minted + multiset{Occurrence(job, db.jobs[job].nextRunAt)}
    ensures job in Next(db, e).jobs && Next(db, e).jobs[job].nextRunAt > db.jobs[job].nextRunAt
  {
    SlotIsFree(db, job);
  }

  lemma SlotIsFree(db: Db, job: JobId)
    requires JobsOk(db) && job in db.jobs && MintedOnce(db, job)
    ensures Occurrence(job, db.jobs[job].nextRunAt) !in db.minted
    ensures !OccurrenceTaken(db, OccurrenceSpec(job, db.jobs[job]))
  {
    var spec := OccurrenceSpec(job, db.jobs[job]);
    forall i | i in db.runs
      ensures !SameOccurrence(Newborn(spec, 0), db.runs[i])
    {
      assert db.runs[i].spec.jobId.Some? ==>
        Occurrence(db.runs[i].spec.jobId.value, db.runs[i].spec.scheduledFor) in db.minted;
    }
  }

  /** No other transaction inserts an occurrence of the job. */
  lemma OthersDoNotMint(db: Db, e: Event, job: JobId, t: Time)
    requires Enabled(db, e)
    requires !(Materializes(e.action, job) && e.action.answer.NextAt?)
    ensures Next(db, e).minted[Occurrence(job, t)] == db.minted[Occurrence(job, t)]
  {
    hide DedupTaken, OccurrenceTaken, Perform;
    if LeaseAction(e.action) {
      PerformKeepsJobs(db, Moves(db, e), e.now);
    }
  }

  lemma MintedOnceStep(db: Db, e: Event, job: JobId)
    requires JobsOk(db) && Enabled(db, e) && MintedOnce(db, job) && !Reschedules(e.action, job)
    ensures MintedOnce(Next(db, e), job)
  {
    hide Enabled, Next, JobsOk;
    if Materializes(e.action, job) && e.action.answer.NextAt? {
      MaterializeMints(db, e, job);
      JobDue(db, e);
      SlotIsFree(db, job);
      var o := Occurrence(job, db.jobs[job].nextRunAt);
      assert forall t: Time ::
          Next(db, e).minted[Occurrence(job, t)]
          == db.minted[Occurrence(job, t)] + if Occurrence(job, t) == o then 1 else 0;
    } else {
      forall t: Time
        ensures Next(db, e).minted[Occurrence(job, t)] == db.minted[Occurrence(job, t)]
      {
        OthersDoNotMint(db, e, job, t);
      }
      if job in db.jobs {
        ScheduleChangesOnlyBy(db, e, job);
      } else if job in Next(db, e).jobs {
        NewJobHasNoHistory(db, e, job);
      }
    }
  }

  lemma JobDue(db: Db, e: Event)
    requires Enabled(db, e) && e.action.Materialize?
    ensures e.action.job in db.jobs && Due(db.jobs[e.action.job], e.txNow)
  {
  }

  lemma NewJobHasNoHistory(db: Db, e: Event, job: JobId)
    requires JobsOk(db) && Enabled(db, e) && job !in db.jobs && job in Next(db, e).jobs
    ensures forall t: Time :: Occurrence(job, t) !in Next(db, e).minted
  {
    JobsAreNew(db, e, job);
  }

  lemma {:induction false} RunMintsOnce(states: seq<Db>, events: seq<Event>, k: nat, job: JobId)
    requires IsRun(states, events) && k < |states| && NeverRescheduled(events, job)
    ensures MintedOnce(states[k], job)
  {
    hide Next, Enabled, JobsOk;
    if k > 0 {
      RunMintsOnce(states, events, k - 1, job);
      assert StepAt(states, events, k - 1);
      JobsOf(states, events, k - 1);
      MintedOnceStep(states[k - 1], events[k - 1], job);
    }
  }

  /**
   Without reschedules a cursor only grows, however many materializers run, and every
   value it has left was inserted as a task exactly once ever, prunes included.
   */
  lemma {:induction false} EverySlotExactlyOnce(states: seq<Db>, events: seq<Event>, i: nat, k: nat, job: JobId)
    requires IsRun(states, events) && i <= k < |states| && NeverRescheduled(events, job)
    requires job in states[i].jobs && job in states[k].jobs
    ensures states[i].jobs[job].nextRunAt <= states[k].jobs[job].nextRunAt
    ensures states[i].jobs[job].nextRunAt != states[k].jobs[job].nextRunAt ==>
      states[k].minted[Occurrence(job, states[i].jobs[job].nextRunAt)] == 1
    decreases k - i
  {
    hide Next, Enabled, JobsOk;
    if i < k {
      assert StepAt(states, events, i);
      JobsOf(states, events, i);
      JobsOf(states, events, i + 1);
      CreatedGrows(states, events, i, i + 1);
      CreatedGrows(states, events, i + 1, k);
      JobKnown(states[i], job);
      JobStays(states, events, i + 1, k, job);
      EverySlotExactlyOnce(states, events, i + 1, k, job);
      RunMintsOnce(states, events, i, job);
      RunMintsOnce(states, events, k, job);
      CursorStep(states[i], events[i], job);
    }
  }

  lemma JobKnown(db: Db, job: JobId)
    requires JobsOk(db) && job in db.jobs
    ensures job in db.jobsCreated
  {
  }

  /** One step either keeps the cursor or moves it forward past a slot it inserts. */
  lemma CursorStep(db: Db, e: Event, job: JobId)
    requires JobsOk(db) && Enabled(db, e) && MintedOnce(db, job) && !Reschedules(e.action, job)
    requires job in db.jobs && job in Next(db, e).jobs
    ensures var c, d := db.jobs[job].nextRunAt, Next(db, e).jobs[job].nextRunAt;
      c <= d && (c != d ==> Occurrence(job, c) in Next(db, e).minted)
  {
    hide Enabled, Next, JobsOk;
    ScheduleChangesOnlyBy(db, e, job);
    if Materializes(e.action, job) && e.action.answer.NextAt? {
      MaterializeMints(db, e, job);
    }
  }

  /** With reschedules as well, at most one row of an occurrence is ever present. */
  lemma OneRowPerOccurrence(states: seq<Db>, events: seq<Event>, i: nat, x: RunId, y: RunId)
    requires IsRun(states, events) && i < |states| && x in states[i].runs && y in states[i].runs
    requires states[i].runs[x].spec.jobId.Some?
    requires states[i].runs[x].spec.jobId == states[i].runs[y].spec.jobId
    requires states[i].runs[x].spec.scheduledFor == states[i].runs[y].spec.scheduledFor
    ensures x == y
  {
    RunInv(states, events, i);
    assert SameOccurrence(states[i].runs[x], states[i].runs[y]);
  }
}
