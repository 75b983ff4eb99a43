/**
 The drain loop of the materializer: up to 100 ticks, each a transaction with its own
 clocks, locks and choice among ties, and the jobs that can stop it.
 */
module Drain {
  import opened Rows
  import opened Lease
  import opened Tables
  import opened Protocol
  import opened Runs
  import opened Schedule
  import opened Ordering
  import opened Statements

  const BATCH: nat := 100

  /** A job whose cron parses but has no next occurrence. */
  predicate Stuck(j: Job, engine: Engine, txNow: Time) {
    engine(j.cron, txNow).NoNext?
  }

  /** What PostgreSQL gives one tick: a fresh id, the rows locked elsewhere, two clocks. */
  datatype TickEnv = TickEnv(newId: RunId, locked: set<JobId>, txNow: Time, now: Time)

  ghost predicate EnvsOk(envs: seq<TickEnv>, first: nat, clock: Time, created: set<RunId>) {
    && |envs| == BATCH
    && (forall i :: first <= i < BATCH ==>
          envs[i].newId !in created && clock <= envs[i].now && envs[i].txNow <= envs[i].now)
    && (forall i, j :: 0 <= i < j < BATCH ==> envs[i].newId != envs[j].newId && envs[i].now <= envs[j].now)
  }

  lemma EnvsStayOk(envs: seq<TickEnv>, n: nat, clock: Time, created: set<RunId>, later: set<RunId>)
    requires EnvsOk(envs, n, clock, created) && n < BATCH && later <= created + {envs[n].newId}
    ensures EnvsOk(envs, n + 1, envs[n].now, later)
  {
  }

  function DueAt(db: Db, env: TickEnv): set<JobId> {
    DueJobs(db.jobs, env.locked, env.txNow)
  }

  function TickEvent(db: Db, job: JobId, engine: Engine, env: TickEnv): Event
    requires job in db.jobs
  {
    Event(Materialize(job, env.newId, engine(db.jobs[job].cron, env.txNow)), env.txNow, env.now)
  }

  /** Tick `i` processed an earliest due unlocked job, by its step of the protocol. */
  ghost predicate TickAt(trail: seq<Db>, picks: seq<JobId>, engine: Engine, envs: seq<TickEnv>, i: nat)
    requires |trail| == |picks| + 1 && i < |picks| <= |envs|
  {
    && picks[i] in trail[i].jobs && IsEarliest(trail[i].jobs, DueAt(trail[i], envs[i]), picks[i])
    && !Stuck(trail[i].jobs[picks[i]], engine, envs[i].txNow)
    && trail[i + 1] == Next(trail[i], TickEvent(trail[i], picks[i], engine, envs[i]))
  }

  ghost predicate IsDrain(trail: seq<Db>, picks: seq<JobId>, engine: Engine, envs: seq<TickEnv>) {
    && |trail| == |picks| + 1 && |picks| <= BATCH == |envs|
    && forall i :: 0 <= i < |picks| ==> TickAt(trail, picks, engine, envs, i)
  }

  /** Why the loop ended: 100 ticks, nothing due, or a job without a next occurrence. */
  datatype Ending = FullBatch | NothingDue | StuckAt(job: JobId)

  ghost predicate EndsBy(last: Db, n: nat, engine: Engine, envs: seq<TickEnv>, end: Ending)
    requires n <= BATCH == |envs|
  {
    match end
    case FullBatch => n == BATCH
    case NothingDue => n < BATCH && DueAt(last, envs[n]) == {}
    case StuckAt(job) =>
      && n < BATCH && job in last.jobs
      && IsEarliest(last.jobs, DueAt(last, envs[n]), job) && Stuck(last.jobs[job], engine, envs[n].txNow)
  }

  ghost predicate IsWholeDrain(trail: seq<Db>, picks: seq<JobId>, engine: Engine, envs: seq<TickEnv>, end: Ending) {
    IsDrain(trail, picks, engine, envs) && EndsBy(trail[|picks|], |picks|, engine, envs, end)
  }

  lemma DrainBegins(db: Db, engine: Engine, envs: seq<TickEnv>, created: set<RunId>)
    requires EnvsOk(envs, 0, db.clock, created)
    ensures IsDrain([db], [], engine, envs)
  {
  }

  lemma EnvIsOk(envs: seq<TickEnv>, n: nat, clock: Time, created: set<RunId>)
    requires EnvsOk(envs, n, clock, created) && n < BATCH
    ensures envs[n].newId !in created && clock <= envs[n].now && envs[n].txNow <= envs[n].now
  {
  }

  /** The drain goes on with a processed tick. */
  lemma DrainTicks(trail: seq<Db>, picks: seq<JobId>, engine: Engine, envs: seq<TickEnv>, job: JobId, after: Db)
    requires IsDrain(trail, picks, engine, envs) && |picks| < BATCH && EngineOk(engine)
    requires var db, env := trail[|picks|], envs[|picks|];
      && EnvsOk(envs, |picks|, db.clock, db.created)
      && job in db.jobs && IsEarliest(db.jobs, DueAt(db, env), job) && !Stuck(db.jobs[job], engine, env.txNow)
      && after == Next(db, TickEvent(db, job, engine, env))
    ensures IsDrain(trail + [after], picks + [job], engine, envs)
    ensures EnvsOk(envs, |picks| + 1, after.clock, after.created)
  {
    hide Next, DueJobs;
    var db, env := trail[|picks|], envs[|picks|];
    var e := TickEvent(db, job, engine, env);
    DrainGrows(trail, picks, engine, envs, job, after);
    TickTables(db, e);
    MaterializeLeavesDue(db, job, env.newId, e.action.answer, env.locked, env.txNow, env.now);
    EnvsStayOk(envs, |picks|, db.clock, db.created, after.created);
  }

  ghost predicate IsDrainOf(db: Db, trail: seq<Db>, picks: seq<JobId>, engine: Engine, envs: seq<TickEnv>,
                            end: Ending) {
    IsWholeDrain(trail, picks, engine, envs, end) && trail[0] == db
  }

  lemma DrainGrows(trail: seq<Db>, picks: seq<JobId>, engine: Engine, envs: seq<TickEnv>, job: JobId, after: Db)
    requires IsDrain(trail, picks, engine, envs) && |picks| < BATCH
    requires TickAt(trail + [after], picks + [job], engine, envs, |picks|)
    ensures IsDrain(trail + [after], picks + [job], engine, envs)
  {
    hide Next;
    forall i | 0 <= i < |picks| + 1
      ensures TickAt(trail + [after], picks + [job], engine, envs, i)
    {
      assert i < |picks| ==> TickAt(trail, picks, engine, envs, i);
    }
  }

  // ---------------------------------------------------------------------------
  // What every drain does, with any clocks and locks
  // ---------------------------------------------------------------------------

  /** A job the loop dealt with: paused if corrupt, else its slot is a task and its cursor moved on. */
  predicate Handled(id: JobId, was: Job, j: Job, runs: map<RunId, Run>, engine: Engine, txNow: Time) {
    match engine(was.cron, txNow)
    case Corrupt => j == was.(paused := true)
    case NoNext => false
    case NextAt(at) => j == was.(nextRunAt := at) && OccurrenceIn(runs, OccurrenceSpec(id, was))
  }

  lemma HandledStays(id: JobId, was: Job, j: Job, runs: map<RunId, Run>, later: map<RunId, Run>,
                     engine: Engine, txNow: Time)
    requires Handled(id, was, j, runs, engine, txNow)
    requires forall i :: i in runs ==> i in later && later[i] == runs[i]
    ensures Handled(id, was, j, later, engine, txNow)
  {
    if OccurrenceIn(runs, OccurrenceSpec(id, was)) {
      var i :| i in runs && SameOccurrence(Newborn(OccurrenceSpec(id, was), 0), runs[i]);
      assert i in later && SameOccurrence(Newborn(OccurrenceSpec(id, was), 0), later[i]);
    }
  }

  /** One materialization handles its job. */
  lemma MaterializeHandles(db: Db, job: JobId, newId: RunId, engine: Engine, txNow: Time, now: Time)
    requires job in db.jobs && newId !in db.runs && !engine(db.jobs[job].cron, txNow).NoNext?
    ensures var b := AfterMaterialize(db, job, newId, engine(db.jobs[job].cron, txNow), now);
      && b.jobs.Keys == db.jobs.Keys
      && Handled(job, db.jobs[job], b.jobs[job], b.runs, engine, txNow)
      && (forall j :: j in db.jobs && j != job ==> b.jobs[j] == db.jobs[j])
      && (forall id :: id in db.runs ==> id in b.runs && b.runs[id] == db.runs[id])
  {
    var answer, spec := engine(db.jobs[job].cron, txNow), OccurrenceSpec(job, db.jobs[job]);
    var b := AfterMaterialize(db, job, newId, answer, now);
    if answer.NextAt? && !OccurrenceTaken(db, spec) {
      assert newId in b.runs && SameOccurrence(Newborn(spec, 0), b.runs[newId]);
    }
  }

  /** The invariant holds along a drain, and only its own fresh ids are used. */
  lemma {:induction false} DrainInv(trail: seq<Db>, picks: seq<JobId>, engine: Engine, envs: seq<TickEnv>, k: nat)
    requires IsDrain(trail, picks, engine, envs) && k <= |picks| && EngineOk(engine)
    requires Inv(trail[0]) && EnvsOk(envs, 0, trail[0].clock, trail[0].created)
    ensures Inv(trail[k]) && EnvsOk(envs, k, trail[k].clock, trail[k].created)
  {
    hide Inv, Next;
    if k > 0 {
      DrainInv(trail, picks, engine, envs, k - 1);
      assert TickAt(trail, picks, engine, envs, k - 1);
      var db, e := trail[k - 1], TickEvent(trail[k - 1], picks[k - 1], engine, envs[k - 1]);
      MaterializeStep(db, e);
      MaterializeLeavesDue(db, picks[k - 1], envs[k - 1].newId, e.action.answer,
                           envs[k - 1].locked, envs[k - 1].txNow, e.now);
      TickTables(db, e);
      EnvsStayOk(envs, k - 1, db.clock, db.created, trail[k].created);
    }
  }

  lemma TickTables(db: Db, e: Event)
    requires e.action.Materialize? && e.action.job in db.jobs
    ensures Next(db, e) == AfterMaterialize(db, e.action.job, e.action.newId, e.action.answer, e.now)
    ensures Next(db, e).clock == e.now
  {
  }

  function TickEvents(trail: seq<Db>, picks: seq<JobId>, engine: Engine, envs: seq<TickEnv>, k: nat): seq<Event>
    requires k <= |picks| <= |envs| && |trail| == |picks| + 1
  {
    if k == 0 then []
    else
      var db, job := trail[k - 1], picks[k - 1];
      TickEvents(trail, picks, engine, envs, k - 1)
      + (if job in db.jobs then [TickEvent(db, job, engine, envs[k - 1])] else [])
  }

  /** A drain that starts in the last state of a run continues that run. */
  lemma {:induction false} DrainContinuesRun(states: seq<Db>, events: seq<Event>, trail: seq<Db>, picks: seq<JobId>,
                                             engine: Engine, envs: seq<TickEnv>, k: nat)
    requires IsRun(states, events) && IsDrain(trail, picks, engine, envs) && k <= |picks| && EngineOk(engine)
    requires trail[0] == states[|events|] && EnvsOk(envs, 0, trail[0].clock, trail[0].created)
    ensures IsRun(states + trail[1..k + 1], events + TickEvents(trail, picks, engine, envs, k))
  {
    hide Inv, Next, IsRun, EnvsOk;
    RunLength(states, events);
    if k == 0 {
      assert states + trail[1..1] == states;
      assert events + [] == events;
    } else {
      DrainContinuesRun(states, events, trail, picks, engine, envs, k - 1);
      var s, es := states + trail[1..k], events + TickEvents(trail, picks, engine, envs, k - 1);
      RunInv(states, events, |events|);
      DrainInv(trail, picks, engine, envs, k - 1);
      assert TickAt(trail, picks, engine, envs, k - 1);
      RunLength(s, es);
      assert s[|es|] == trail[k - 1];
      var e := TickEvent(trail[k - 1], picks[k - 1], engine, envs[k - 1]);
      EnvIsOk(envs, k - 1, trail[k - 1].clock, trail[k - 1].created);
      MaterializeStep(trail[k - 1], e);
      hide Enabled;
      RunGrows(s, es, e);
      assert s + [trail[k]] == states + trail[1..k + 1];
      assert es + [e] == events + TickEvents(trail, picks, engine, envs, k);
    }
  }

  /** Tasks there were are untouched by a drain. */
  lemma {:induction false} DrainKeepsTasks(trail: seq<Db>, picks: seq<JobId>, engine: Engine, envs: seq<TickEnv>,
                                           i: nat, k: nat)
    requires IsDrain(trail, picks, engine, envs) && i <= k <= |picks| && EngineOk(engine)
    requires Inv(trail[0]) && EnvsOk(envs, 0, trail[0].clock, trail[0].created)
    ensures forall id :: id in trail[i].runs ==> id in trail[k].runs && trail[k].runs[id] == trail[i].runs[id]
    decreases k - i
  {
    hide Inv, Next, EnvsOk, EngineOk;
    if i < k {
      DrainKeepsTasks(trail, picks, engine, envs, i, k - 1);
      TickHandles(trail, picks, engine, envs, k - 1);
    }
  }

  lemma TickHandles(trail: seq<Db>, picks: seq<JobId>, engine: Engine, envs: seq<TickEnv>, i: nat)
    requires IsDrain(trail, picks, engine, envs) && i < |picks| && EngineOk(engine)
    requires Inv(trail[0]) && EnvsOk(envs, 0, trail[0].clock, trail[0].created)
    ensures picks[i] in trail[i].jobs && trail[i + 1].jobs.Keys == trail[i].jobs.Keys
    ensures Handled(picks[i], trail[i].jobs[picks[i]], trail[i + 1].jobs[picks[i]], trail[i + 1].runs,
                    engine, envs[i].txNow)
    ensures forall j :: j in trail[i].jobs && j != picks[i] ==> trail[i + 1].jobs[j] == trail[i].jobs[j]
    ensures forall id :: id in trail[i].runs ==> id in trail[i + 1].runs && trail[i + 1].runs[id] == trail[i].runs[id]
  {
    hide Inv, Next, EngineOk, Handled;
    DrainInv(trail, picks, engine, envs, i);
    assert TickAt(trail, picks, engine, envs, i);
    NewIdIsNew(trail[i], envs[i].newId);
    TickTables(trail[i], TickEvent(trail[i], picks[i], engine, envs[i]));
    MaterializeHandles(trail[i], picks[i], envs[i].newId, engine, envs[i].txNow, envs[i].now);
  }

  /**
   Whatever the clocks, locks and ties: every tick handles its job, and the task of the
   slot is there from then on to the end of the drain.
   */
  lemma DrainHandles(trail: seq<Db>, picks: seq<JobId>, engine: Engine, envs: seq<TickEnv>, i: nat, k: nat)
    requires IsDrain(trail, picks, engine, envs) && i < k <= |picks| && EngineOk(engine)
    requires Inv(trail[0]) && EnvsOk(envs, 0, trail[0].clock, trail[0].created)
    ensures picks[i] in trail[i].jobs && picks[i] in trail[i + 1].jobs
    ensures Handled(picks[i], trail[i].jobs[picks[i]], trail[i + 1].jobs[picks[i]], trail[k].runs,
                    engine, envs[i].txNow)
    ensures DueAt(trail[i + 1], envs[i]) == DueAt(trail[i], envs[i]) - {picks[i]}
    ensures picks[i] in DueAt(trail[i], envs[i])
  {
    hide Inv, Next, EnvsOk, Handled;
    TickHandles(trail, picks, engine, envs, i);
    DrainKeepsTasks(trail, picks, engine, envs, i + 1, k);
    assert TickAt(trail, picks, engine, envs, i);
    var db, e := trail[i], TickEvent(trail[i], picks[i], engine, envs[i]);
    HandledStays(picks[i], db.jobs[picks[i]], trail[i + 1].jobs[picks[i]], trail[i + 1].runs, trail[k].runs,
                 engine, envs[i].txNow);
    TickTables(db, e);
    MaterializeLeavesDue(db, picks[i], envs[i].newId, e.action.answer, envs[i].locked, envs[i].txNow, e.now);
  }

  // ---------------------------------------------------------------------------
  // A drain at a fixed clock
  // ---------------------------------------------------------------------------

  function EarlierThan(jobs: map<JobId, Job>, due: set<JobId>, job: JobId): set<JobId> {
    set j | j in due && j in jobs && job in jobs && jobs[j].nextRunAt < jobs[job].nextRunAt
  }

  /** The due jobs with a next occurrence whose cursor is before that of `job`. */
  function HealthyBefore(jobs: map<JobId, Job>, due: set<JobId>, engine: Engine, txNow: Time, job: JobId): set<JobId> {
    set j | j in due && j in jobs && job in jobs && !Stuck(jobs[j], engine, txNow)
            && jobs[j].nextRunAt < jobs[job].nextRunAt
  }

  /** The same with the ones whose cursor equals that of `job`. */
  function HealthyUpTo(jobs: map<JobId, Job>, due: set<JobId>, engine: Engine, txNow: Time, job: JobId): set<JobId> {
    set j | j in due && j in jobs && job in jobs && !Stuck(jobs[j], engine, txNow)
            && jobs[j].nextRunAt <= jobs[job].nextRunAt
  }

  lemma DrainStarts(jobs: map<JobId, Job>, locked: set<JobId>, txNow: Time)
    ensures DrainProgress(jobs, jobs, DueJobs(jobs, locked, txNow), {}, locked, txNow)
  {
  }

  /** After `done` were handled: the others are untouched, still due, and no earlier. */
  ghost predicate DrainProgress(was: map<JobId, Job>, jobs: map<JobId, Job>, due: set<JobId>, done: set<JobId>,
                                locked: set<JobId>, txNow: Time) {
    && done <= due <= was.Keys && jobs.Keys == was.Keys
    && DueJobs(jobs, locked, txNow) == due - done
    && (forall j :: j in was && j !in done ==> jobs[j] == was[j])
    && (forall d, j :: d in done && j in due && j !in done ==> was[d].nextRunAt <= was[j].nextRunAt)
  }

  lemma DrainTick(was: map<JobId, Job>, before: Db, due: set<JobId>, done: set<JobId>, locked: set<JobId>,
                  txNow: Time, now: Time, job: JobId, newId: RunId, answer: Cron)
    requires DrainProgress(was, before.jobs, due, done, locked, txNow)
    requires IsEarliest(before.jobs, DueJobs(before.jobs, locked, txNow), job)
    requires AnswerOk(answer, txNow) && !answer.NoNext?
    ensures var after := Next(before, Event(Materialize(job, newId, answer), txNow, now));
      && DrainProgress(was, after.jobs, due, done + {job}, locked, txNow)
      && job in was && before.jobs[job] == was[job] && job !in done
      && after.created <= before.created + {newId} && after.clock == now
  {
    MaterializeLeavesDue(before, job, newId, answer, locked, txNow, now);
  }

  /**
   The loop stopped at `job`, which is stuck and still due: all jobs before it were
   handled, none of them stuck, and none after it.
   */
  ghost predicate StoppedAt(was: map<JobId, Job>, jobs: map<JobId, Job>, done: set<JobId>, engine: Engine,
                            locked: set<JobId>, txNow: Time, job: JobId) {
    var due := DueJobs(was, locked, txNow);
    && job in due && Stuck(was[job], engine, txNow) && job in DueJobs(jobs, locked, txNow)
    && EarlierThan(was, due, job) <= done <= HealthyUpTo(was, due, engine, txNow, job)
    && |done| < BATCH
  }

  /** The loop ended: as many jobs as it may were handled, and no stuck one was reached. */
  ghost predicate Drained(was: map<JobId, Job>, jobs: map<JobId, Job>, done: set<JobId>, engine: Engine,
                          locked: set<JobId>, txNow: Time) {
    var due := DueJobs(was, locked, txNow);
    && |done| == Least(BATCH, |due|)
    && |DueJobs(jobs, locked, txNow)| == |due| - |done|
    && forall j :: j in due && Stuck(was[j], engine, txNow) ==> done <= HealthyUpTo(was, due, engine, txNow, j)
                                                                 && |done| == BATCH
  }

  lemma DrainStops(was: map<JobId, Job>, jobs: map<JobId, Job>, done: set<JobId>, engine: Engine,
                   locked: set<JobId>, txNow: Time, job: JobId)
    requires DrainProgress(was, jobs, DueJobs(was, locked, txNow), done, locked, txNow) && |done| < BATCH
    requires forall j :: j in done ==> j in was && !Stuck(was[j], engine, txNow)
    requires IsEarliest(jobs, DueJobs(jobs, locked, txNow), job) && Stuck(jobs[job], engine, txNow)
    ensures StoppedAt(was, jobs, done, engine, locked, txNow, job)
  {
  }

  lemma DrainEnds(was: map<JobId, Job>, jobs: map<JobId, Job>, done: set<JobId>, engine: Engine,
                  locked: set<JobId>, txNow: Time)
    requires DrainProgress(was, jobs, DueJobs(was, locked, txNow), done, locked, txNow)
    requires |done| <= BATCH && (|done| < BATCH ==> DueJobs(jobs, locked, txNow) == {})
    requires forall j :: j in done ==> j in was && !Stuck(was[j], engine, txNow)
    ensures Drained(was, jobs, done, engine, locked, txNow)
  {
    var due := DueJobs(was, locked, txNow);
    assert due == done + (due - done);
  }

  lemma SubsetSize(a: set<JobId>, b: set<JobId>)
    requires a <= b
    ensures |a| <= |b|
  {
    assert b == a + (b - a);
  }

  /** The handled jobs are `done`; all other jobs and all tasks there were are untouched. */
  ghost predicate DrainEffect(was: map<JobId, Job>, runsWere: map<RunId, Run>, jobs: map<JobId, Job>,
                              runs: map<RunId, Run>, done: set<JobId>, engine: Engine, txNow: Time) {
    && jobs.Keys == was.Keys && done <= was.Keys
    && (forall j :: j in was && j in jobs ==>
          if j in done then Handled(j, was[j], jobs[j], runs, engine, txNow) else jobs[j] == was[j])
    && (forall id :: id in runsWere ==> id in runs && runs[id] == runsWere[id])
  }

  lemma DrainEffectStarts(jobs: map<JobId, Job>, runs: map<RunId, Run>, engine: Engine, txNow: Time)
    ensures DrainEffect(jobs, runs, jobs, runs, {}, engine, txNow)
  {
  }

  lemma DrainEffectTick(was: map<JobId, Job>, runsWere: map<RunId, Run>, db: Db, done: set<JobId>,
                        job: JobId, newId: RunId, engine: Engine, txNow: Time, now: Time)
    requires DrainEffect(was, runsWere, db.jobs, db.runs, done, engine, txNow)
    requires job in db.jobs && job !in done && newId !in db.runs && !engine(db.jobs[job].cron, txNow).NoNext?
    ensures var b := Next(db, Event(Materialize(job, newId, engine(db.jobs[job].cron, txNow)), txNow, now));
      DrainEffect(was, runsWere, b.jobs, b.runs, done + {job}, engine, txNow)
  {
    MaterializeHandles(db, job, newId, engine, txNow, now);
    var b := AfterMaterialize(db, job, newId, engine(db.jobs[job].cron, txNow), now);
    hide Handled, AfterMaterialize;
    forall j | j in done
      ensures Handled(j, was[j], b.jobs[j], b.runs, engine, txNow)
    {
      HandledStays(j, was[j], db.jobs[j], db.runs, b.runs, engine, txNow);
    }
  }

  /** All ticks see the same clock and the same locks. */
  ghost predicate Fixed(envs: seq<TickEnv>, locked: set<JobId>, txNow: Time) {
    forall i :: 0 <= i < |envs| ==> envs[i].locked == locked && envs[i].txNow == txNow
  }

  function Picked(picks: seq<JobId>): set<JobId> {
    set i | 0 <= i < |picks| :: picks[i]
  }

  lemma PickedNext(picks: seq<JobId>, k: nat)
    requires k < |picks|
    ensures Picked(picks[..k + 1]) == Picked(picks[..k]) + {picks[k]}
  {
    assert picks[..k + 1] == picks[..k] + [picks[k]];
  }

  lemma {:induction false} FixedProgress(trail: seq<Db>, picks: seq<JobId>, engine: Engine, envs: seq<TickEnv>,
                                         locked: set<JobId>, txNow: Time, k: nat)
    requires IsDrain(trail, picks, engine, envs) && k <= |picks| && EngineOk(engine) && Fixed(envs, locked, txNow)
    ensures var was, done := trail[0].jobs, Picked(picks[..k]);
      && DrainProgress(was, trail[k].jobs, DueJobs(was, locked, txNow), done, locked, txNow) && |done| == k
      && forall j :: j in done ==> j in was && !Stuck(was[j], engine, txNow)
  {
    hide Next, IsEarliest, DueJobs;
    var was := trail[0].jobs;
    if k == 0 {
      DrainStarts(was, locked, txNow);
    } else {
      FixedProgress(trail, picks, engine, envs, locked, txNow, k - 1);
      assert TickAt(trail, picks, engine, envs, k - 1);
      var db, env, job := trail[k - 1], envs[k - 1], picks[k - 1];
      DrainTick(was, db, DueJobs(was, locked, txNow), Picked(picks[..k - 1]), locked, txNow, env.now,
                job, env.newId, engine(db.jobs[job].cron, txNow));
      PickedNext(picks, k - 1);
    }
  }

  lemma {:induction false} FixedEffect(trail: seq<Db>, picks: seq<JobId>, engine: Engine, envs: seq<TickEnv>,
                                       locked: set<JobId>, txNow: Time, k: nat)
    requires IsDrain(trail, picks, engine, envs) && k <= |picks| && EngineOk(engine) && Fixed(envs, locked, txNow)
    requires Inv(trail[0]) && EnvsOk(envs, 0, trail[0].clock, trail[0].created)
    ensures DrainEffect(trail[0].jobs, trail[0].runs, trail[k].jobs, trail[k].runs, Picked(picks[..k]), engine, txNow)
  {
    hide Inv, Next, IsEarliest, DueJobs, DrainEffect, EngineOk;
    if k == 0 {
      assert Picked(picks[..0]) == {};
      DrainEffectStarts(trail[0].jobs, trail[0].runs, engine, txNow);
    } else {
      FixedEffect(trail, picks, engine, envs, locked, txNow, k - 1);
      FixedProgress(trail, picks, engine, envs, locked, txNow, k - 1);
      DrainInv(trail, picks, engine, envs, k - 1);
      assert TickAt(trail, picks, engine, envs, k - 1);
      NewIdIsNew(trail[k - 1], envs[k - 1].newId);
      PickedNext(picks, k - 1);
      FixedPickIsNew(trail, picks, engine, envs, locked, txNow, k - 1);
      DrainEffectTick(trail[0].jobs, trail[0].runs, trail[k - 1], Picked(picks[..k - 1]), picks[k - 1],
                      envs[k - 1].newId, engine, txNow, envs[k - 1].now);
    }
  }

  lemma FixedPickIsNew(trail: seq<Db>, picks: seq<JobId>, engine: Engine, envs: seq<TickEnv>,
                       locked: set<JobId>, txNow: Time, k: nat)
    requires IsDrain(trail, picks, engine, envs) && k < |picks| && EngineOk(engine) && Fixed(envs, locked, txNow)
    ensures picks[k] !in Picked(picks[..k])
  {
    hide Next, DueJobs;
    FixedProgress(trail, picks, engine, envs, locked, txNow, k);
    assert TickAt(trail, picks, engine, envs, k);
  }

  /**
   At a fixed clock the loop handles min(n, 100) of the n due unlocked jobs, each once,
   earliest first, or stops at a stuck one with exactly the jobs before it handled and
   perhaps some with the same cursor.
   */
  lemma FixedDrain(trail: seq<Db>, picks: seq<JobId>, engine: Engine, envs: seq<TickEnv>, end: Ending,
                   locked: set<JobId>, txNow: Time)
    requires IsWholeDrain(trail, picks, engine, envs, end) && EngineOk(engine) && Fixed(envs, locked, txNow)
    ensures |Picked(picks)| == |picks|
    ensures var was, jobs, done := trail[0].jobs, trail[|picks|].jobs, Picked(picks);
      if end.StuckAt? then StoppedAt(was, jobs, done, engine, locked, txNow, end.job)
      else Drained(was, jobs, done, engine, locked, txNow)
  {
    hide Next, IsEarliest, DueJobs, DrainProgress, StoppedAt, Drained;
    FixedProgress(trail, picks, engine, envs, locked, txNow, |picks|);
    assert picks[..|picks|] == picks;
    var was, jobs := trail[0].jobs, trail[|picks|].jobs;
    match end
    case StuckAt(job) => DrainStops(was, jobs, Picked(picks), engine, locked, txNow, job);
    case _ => DrainEnds(was, jobs, Picked(picks), engine, locked, txNow);
  }

  // ---------------------------------------------------------------------------
  // Exactly when a drain at a fixed clock fails
  // ---------------------------------------------------------------------------

  /** Before every stuck job there is a whole batch of jobs that are not. */
  ghost predicate OutOfReach(db: Db, engine: Engine, locked: set<JobId>, txNow: Time) {
    var due := DueJobs(db.jobs, locked, txNow);
    forall j :: j in due && Stuck(db.jobs[j], engine, txNow) ==>
      |HealthyBefore(db.jobs, due, engine, txNow, j)| >= BATCH
  }

  /** Some stuck job comes within the batch even after all jobs with its own cursor. */
  ghost predicate WithinReach(db: Db, engine: Engine, locked: set<JobId>, txNow: Time) {
    var due := DueJobs(db.jobs, locked, txNow);
    exists j :: j in due && Stuck(db.jobs[j], engine, txNow)
                && |HealthyUpTo(db.jobs, due, engine, txNow, j)| < BATCH
  }

  /** Whatever the choice among ties: these two conditions decide how the loop ends. */
  lemma ReachDecides(trail: seq<Db>, picks: seq<JobId>, engine: Engine, envs: seq<TickEnv>, end: Ending,
                     locked: set<JobId>, txNow: Time)
    requires IsWholeDrain(trail, picks, engine, envs, end) && EngineOk(engine) && Fixed(envs, locked, txNow)
    ensures OutOfReach(trail[0], engine, locked, txNow) ==> !end.StuckAt?
    ensures WithinReach(trail[0], engine, locked, txNow) ==> end.StuckAt?
  {
    FixedDrain(trail, picks, engine, envs, end, locked, txNow);
    hide IsWholeDrain, DueJobs;
    var was, due, done := trail[0].jobs, DueJobs(trail[0].jobs, locked, txNow), Picked(picks);
    if end.StuckAt? {
      assert HealthyBefore(was, due, engine, txNow, end.job) <= done;
      SubsetSize(HealthyBefore(was, due, engine, txNow, end.job), done);
    } else {
      forall j | j in due && Stuck(was[j], engine, txNow)
        ensures |HealthyUpTo(was, due, engine, txNow, j)| >= BATCH
      {
        SubsetSize(done, HealthyUpTo(was, due, engine, txNow, j));
      }
    }
  }

  /**
   How ties are broken: a lucky drain stops only when nothing else is earliest, an
   unlucky one stops as soon as a stuck job is among the earliest.
   */
  ghost predicate PlaysBy(lucky: bool, trail: seq<Db>, picks: seq<JobId>, engine: Engine, envs: seq<TickEnv>)
    requires |trail| == |picks| + 1 && |picks| <= |envs|
  {
    !lucky ==> forall i :: 0 <= i < |picks| ==> NoneStuckFirst(trail[i], engine, envs[i])
  }

  ghost predicate NoneStuckFirst(db: Db, engine: Engine, env: TickEnv) {
    forall j :: j in db.jobs && IsEarliest(db.jobs, DueAt(db, env), j) ==> !Stuck(db.jobs[j], engine, env.txNow)
  }

  ghost predicate AllStuckFirst(db: Db, engine: Engine, env: TickEnv) {
    forall j :: j in db.jobs && IsEarliest(db.jobs, DueAt(db, env), j) ==> Stuck(db.jobs[j], engine, env.txNow)
  }

  /** From any state there is a drain of either kind. */
  lemma {:induction false} PlayOn(lucky: bool, trail: seq<Db>, picks: seq<JobId>, engine: Engine, envs: seq<TickEnv>)
    returns (t: seq<Db>, p: seq<JobId>, end: Ending)
    requires IsDrain(trail, picks, engine, envs) && PlaysBy(lucky, trail, picks, engine, envs)
    ensures IsWholeDrain(t, p, engine, envs, end) && t[0] == trail[0] && PlaysBy(lucky, t, p, engine, envs)
    ensures end.StuckAt? && lucky ==> AllStuckFirst(t[|p|], engine, envs[|p|])
    decreases BATCH - |picks|
  {
    hide Next, DueJobs, IsEarliest;
    t, p := trail, picks;
    if |picks| == BATCH {
      end := FullBatch;
    } else {
      var db, env := trail[|picks|], envs[|picks|];
      if DueAt(db, env) == {} {
        end := NothingDue;
      } else {
        var job := Choose(lucky, db, engine, env);
        if Stuck(db.jobs[job], engine, env.txNow) {
          end := StuckAt(job);
        } else {
          var after := Next(db, TickEvent(db, job, engine, env));
          DrainGrows(trail, picks, engine, envs, job, after);
          assert forall i :: 0 <= i <= |picks| ==> (trail + [after])[i] == trail[i];
          t, p, end := PlayOn(lucky, trail + [after], picks + [job], engine, envs);
        }
      }
    }
  }

  lemma Choose(lucky: bool, db: Db, engine: Engine, env: TickEnv) returns (job: JobId)
    requires DueAt(db, env) != {}
    ensures job in db.jobs && IsEarliest(db.jobs, DueAt(db, env), job)
    ensures Stuck(db.jobs[job], engine, env.txNow) && lucky ==> AllStuckFirst(db, engine, env)
    ensures !Stuck(db.jobs[job], engine, env.txNow) && !lucky ==> NoneStuckFirst(db, engine, env)
  {
    job := HasEarliest(db.jobs, DueAt(db, env));
    hide IsEarliest, DueJobs;
    if j :| j in db.jobs && IsEarliest(db.jobs, DueAt(db, env), j) && Stuck(db.jobs[j], engine, env.txNow) != lucky {
      job := j;
    }
  }

  lemma DrainNow(lucky: bool, db: Db, engine: Engine, envs: seq<TickEnv>)
    returns (t: seq<Db>, p: seq<JobId>, end: Ending)
    requires |envs| == BATCH
    ensures IsDrainOf(db, t, p, engine, envs, end) && PlaysBy(lucky, t, p, engine, envs)
    ensures end.StuckAt? && lucky ==> AllStuckFirst(t[|p|], engine, envs[|p|])
  {
    t, p, end := PlayOn(lucky, [db], [], engine, envs);
  }

  /** With no healthy job left among the earliest, all that are no later were handled. */
  lemma LuckyStops(trail: seq<Db>, picks: seq<JobId>, engine: Engine, envs: seq<TickEnv>, end: Ending,
                   locked: set<JobId>, txNow: Time)
    requires IsWholeDrain(trail, picks, engine, envs, end) && EngineOk(engine) && Fixed(envs, locked, txNow)
    requires end.StuckAt? && AllStuckFirst(trail[|picks|], engine, envs[|picks|])
    ensures WithinReach(trail[0], engine, locked, txNow)
  {
    FixedDrain(trail, picks, engine, envs, end, locked, txNow);
    FixedProgress(trail, picks, engine, envs, locked, txNow, |picks|);
    assert picks[..|picks|] == picks;
    hide IsDrain, DueJobs, Next;
    var was, due, job := trail[0].jobs, DueJobs(trail[0].jobs, locked, txNow), end.job;
    var up := HealthyUpTo(was, due, engine, txNow, job);
    var last, left := trail[|picks|], DueAt(trail[|picks|], envs[|picks|]);
    assert forall j :: j in up && j in left ==> IsEarliest(last.jobs, left, j);
    assert up <= Picked(picks);
    SubsetSize(up, Picked(picks));
  }

  /** A drain that never passed over a stuck job handled only jobs strictly before it. */
  lemma UnluckyGoesOn(trail: seq<Db>, picks: seq<JobId>, engine: Engine, envs: seq<TickEnv>, end: Ending,
                      locked: set<JobId>, txNow: Time)
    requires IsWholeDrain(trail, picks, engine, envs, end) && EngineOk(engine) && Fixed(envs, locked, txNow)
    requires !end.StuckAt? && PlaysBy(false, trail, picks, engine, envs)
    ensures OutOfReach(trail[0], engine, locked, txNow)
  {
    FixedDrain(trail, picks, engine, envs, end, locked, txNow);
    var was, due, done := trail[0].jobs, DueJobs(trail[0].jobs, locked, txNow), Picked(picks);
    hide DueJobs, Next, IsEarliest;
    forall j | j in due && Stuck(was[j], engine, txNow)
      ensures |HealthyBefore(was, due, engine, txNow, j)| >= BATCH
    {
      forall i | 0 <= i < |picks|
        ensures picks[i] in HealthyBefore(was, due, engine, txNow, j)
      {
        UnluckyPick(trail, picks, engine, envs, locked, txNow, i, j);
      }
      SubsetSize(done, HealthyBefore(was, due, engine, txNow, j));
    }
  }

  lemma UnluckyPick(trail: seq<Db>, picks: seq<JobId>, engine: Engine, envs: seq<TickEnv>,
                    locked: set<JobId>, txNow: Time, i: nat, j: JobId)
    requires IsDrain(trail, picks, engine, envs) && EngineOk(engine) && Fixed(envs, locked, txNow)
    requires i < |picks| && PlaysBy(false, trail, picks, engine, envs)
    requires var due := DueJobs(trail[0].jobs, locked, txNow);
      j in due && Stuck(trail[0].jobs[j], engine, txNow)
    ensures picks[i] in HealthyBefore(trail[0].jobs, DueJobs(trail[0].jobs, locked, txNow), engine, txNow, j)
  {
    FixedProgress(trail, picks, engine, envs, locked, txNow, i);
    assert TickAt(trail, picks, engine, envs, i) && NoneStuckFirst(trail[i], engine, envs[i]);
    hide IsDrain, Next, DueJobs;
    var db, due := trail[i], DueAt(trail[i], envs[i]);
    assert j in due && db.jobs[j] == trail[0].jobs[j];
    assert db.jobs[j].nextRunAt <= db.jobs[picks[i]].nextRunAt ==> IsEarliest(db.jobs, due, j);
  }

  /**
   The loop ends well, however ties are broken, exactly when no stuck job is within its
   reach in the worst case.
   */
  lemma DrainSucceedsIff(db: Db, engine: Engine, envs: seq<TickEnv>, locked: set<JobId>, txNow: Time)
    requires EngineOk(engine) && |envs| == BATCH && Fixed(envs, locked, txNow)
    ensures OutOfReach(db, engine, locked, txNow) <==>
      forall t, p, end :: IsDrainOf(db, t, p, engine, envs, end) ==> !end.StuckAt?
  {
    hide IsWholeDrain, OutOfReach, PlaysBy;
    if OutOfReach(db, engine, locked, txNow) {
      forall t, p, end | IsDrainOf(db, t, p, engine, envs, end)
        ensures !end.StuckAt?
      {
        ReachDecides(t, p, engine, envs, end, locked, txNow);
      }
    } else {
      var t, p, end := DrainNow(false, db, engine, envs);
      if !end.StuckAt? {
        UnluckyGoesOn(t, p, engine, envs, end, locked, txNow);
      }
    }
  }

  /** It ends in error, however ties are broken, exactly when a stuck job is within reach in the best case. */
  lemma DrainFailsIff(db: Db, engine: Engine, envs: seq<TickEnv>, locked: set<JobId>, txNow: Time)
    requires EngineOk(engine) && |envs| == BATCH && Fixed(envs, locked, txNow)
    ensures WithinReach(db, engine, locked, txNow) <==>
      forall t, p, end :: IsDrainOf(db, t, p, engine, envs, end) ==> end.StuckAt?
  {
    hide IsWholeDrain, WithinReach, PlaysBy;
    if WithinReach(db, engine, locked, txNow) {
      forall t, p, end | IsDrainOf(db, t, p, engine, envs, end)
        ensures end.StuckAt?
      {
        ReachDecides(t, p, engine, envs, end, locked, txNow);
      }
    } else {
      var t, p, end := DrainNow(true, db, engine, envs);
      if end.StuckAt? {
        LuckyStops(t, p, engine, envs, end, locked, txNow);
      }
    }
  }

  /** Of at most a batch of due jobs, one stuck job is enough to stop the loop. */
  lemma SmallDrain(db: Db, engine: Engine, locked: set<JobId>, txNow: Time)
    requires |DueJobs(db.jobs, locked, txNow)| <= BATCH
    ensures var due := DueJobs(db.jobs, locked, txNow);
      var noneStuck := forall j :: j in due ==> !Stuck(db.jobs[j], engine, txNow);
      (OutOfReach(db, engine, locked, txNow) <==> noneStuck)
      && (WithinReach(db, engine, locked, txNow) <==> !noneStuck)
  {
    var jobs, due := db.jobs, DueJobs(db.jobs, locked, txNow);
    forall j | j in due && Stuck(jobs[j], engine, txNow)
      ensures |HealthyUpTo(jobs, due, engine, txNow, j)| < BATCH && |HealthyBefore(jobs, due, engine, txNow, j)| < BATCH
    {
      SubsetSize(HealthyUpTo(jobs, due, engine, txNow, j), due - {j});
      SubsetSize(HealthyBefore(jobs, due, engine, txNow, j), due - {j});
    }
  }

  /** If no stuck job shares its cursor with a healthy one, the outcome never depends on ties. */
  lemma UntiedDecided(db: Db, engine: Engine, locked: set<JobId>, txNow: Time)
    requires var due := DueJobs(db.jobs, locked, txNow);
      forall i, j :: i in due && j in due && Stuck(db.jobs[i], engine, txNow) && !Stuck(db.jobs[j], engine, txNow)
                     ==> db.jobs[i].nextRunAt != db.jobs[j].nextRunAt
    ensures WithinReach(db, engine, locked, txNow) <==> !OutOfReach(db, engine, locked, txNow)
  {
    var jobs, due := db.jobs, DueJobs(db.jobs, locked, txNow);
    forall j | j in due && Stuck(jobs[j], engine, txNow)
      ensures HealthyUpTo(jobs, due, engine, txNow, j) == HealthyBefore(jobs, due, engine, txNow, j)
    {
    }
  }

  // ---------------------------------------------------------------------------
  // A job that stops every drain
  // ---------------------------------------------------------------------------

  /** The job is unpaused and its cursor is before that of every other unpaused job. */
  ghost predicate InFront(db: Db, job: JobId) {
    && job in db.jobs && !db.jobs[job].paused
    && forall i :: i in db.jobs && i != job && !db.jobs[i].paused ==>
         db.jobs[job].nextRunAt < db.jobs[i].nextRunAt
  }

  /** The cron has no occurrence after `since`. */
  ghost predicate Exhausted(engine: Engine, cron: string, since: Time) {
    forall t: Time :: since <= t ==> engine(cron, t).NoNext?
  }

  /** An explicit new cursor for an unpaused job. */
  predicate MovesUnpaused(db: Db, a: Action) {
    a.Reschedule? && a.update.SetNextRunAt? && a.job in db.jobs && !db.jobs[a.job].paused
  }

  /**
   The event leaves the schedule `j` of `job` alone: it does not pause, delete or
   reschedule it or replace its cron, it neither moves the cursor of an unpaused job to
   the slot or before it nor resumes a job that has such a cursor, and a materialization
   of it follows the engine.  It starts after the slot is due.
   */
  ghost predicate LeavesAlone(db: Db, e: Event, job: JobId, j: Job, engine: Engine) {
    && j.nextRunAt <= e.txNow
    && !SetsPause(e.action, job) && !Deletes(e.action, job) && !Reschedules(e.action, job)
    && (e.action.EnsureJob? && e.action.config.name == j.name ==> e.action.config.cron == j.cron)
    && (MovesUnpaused(db, e.action) ==> e.action.update.at > j.nextRunAt)
    && (e.action.SetPaused? && !e.action.paused && e.action.job in db.jobs ==>
          db.jobs[e.action.job].nextRunAt > j.nextRunAt)
    && (Materializes(e.action, job) ==> e.action.answer == engine(j.cron, e.txNow))
  }

  /** One such event keeps the job in front, with its cron and slot, and inserts no task for it. */
  lemma FrontStays(db: Db, e: Event, job: JobId, engine: Engine)
    requires JobsOk(db) && Enabled(db, e) && InFront(db, job) && LeavesAlone(db, e, job, db.jobs[job], engine)
    requires engine(db.jobs[job].cron, e.txNow).NoNext?
    ensures InFront(Next(db, e), job)
    ensures var j, k := db.jobs[job], Next(db, e).jobs[job];
      k.name == j.name && k.cron == j.cron && k.nextRunAt == j.nextRunAt
    ensures forall t: Time :: Next(db, e).minted[Occurrence(job, t)] == db.minted[Occurrence(job, t)]
  {
    hide Next, Enabled, JobsOk;
    forall t: Time
      ensures Next(db, e).minted[Occurrence(job, t)] == db.minted[Occurrence(job, t)]
    {
      OthersDoNotMint(db, e, job, t);
    }
    ScheduleChangesOnlyBy(db, e, job);
    CronStays(db, e, job, engine);
    forall i | i in Next(db, e).jobs && i != job && !Next(db, e).jobs[i].paused
      ensures db.jobs[job].nextRunAt < Next(db, e).jobs[i].nextRunAt
    {
      OthersStayBehind(db, e, job, i, engine);
    }
  }

  lemma CronStays(db: Db, e: Event, job: JobId, engine: Engine)
    requires JobsOk(db) && Enabled(db, e) && job in db.jobs && LeavesAlone(db, e, job, db.jobs[job], engine)
    ensures job in Next(db, e).jobs && Next(db, e).jobs[job].cron == db.jobs[job].cron
  {
    JobKnown(db, job);
    NextJobs(db, e);
    hide Next, NameTaken, MovesUnpaused, AfterReschedule, JobsOk;
    if e.action.Reschedule? {
      RescheduleKeepsCron(db, e, job);
    }
  }

  lemma RescheduleKeepsCron(db: Db, e: Event, job: JobId)
    requires job in db.jobs && e.action.Reschedule?
    ensures job in JobsAfter(db, e) && JobsAfter(db, e)[job].cron == db.jobs[job].cron
  {
  }

  lemma OthersStayBehind(db: Db, e: Event, job: JobId, other: JobId, engine: Engine)
    requires JobsOk(db) && Enabled(db, e) && InFront(db, job) && LeavesAlone(db, e, job, db.jobs[job], engine)
    requires other != job && other in Next(db, e).jobs && !Next(db, e).jobs[other].paused
    ensures db.jobs[job].nextRunAt < Next(db, e).jobs[other].nextRunAt
  {
    NextJobs(db, e);
    hide Next, NameTaken, JobsOk;
  }

  /** As long as it is left alone, an exhausted job in front stays there, unmaterialized. */
  lemma {:induction false} FrontIsForever(states: seq<Db>, events: seq<Event>, i: nat, k: nat, job: JobId,
                                          engine: Engine)
    requires IsRun(states, events) && i <= k < |states| && InFront(states[i], job)
    requires Exhausted(engine, states[i].jobs[job].cron, states[i].jobs[job].nextRunAt)
    requires forall n :: i <= n < k ==> LeavesAlone(states[n], events[n], job, states[i].jobs[job], engine)
    ensures InFront(states[k], job)
    ensures var j, l := states[i].jobs[job], states[k].jobs[job];
      l.name == j.name && l.cron == j.cron && l.nextRunAt == j.nextRunAt
    ensures forall t: Time :: states[k].minted[Occurrence(job, t)] == states[i].minted[Occurrence(job, t)]
    decreases k - i
  {
    FrontIsThere(states[i], job);
    hide Next, Enabled, JobsOk, InFront;
    if i < k {
      FrontIsForever(states, events, i, k - 1, job, engine);
      assert StepAt(states, events, k - 1);
      JobsOf(states, events, k - 1);
      FrontIsThere(states[k - 1], job);
      assert LeavesAlone(states[k - 1], events[k - 1], job, states[i].jobs[job], engine);
      FrontStays(states[k - 1], events[k - 1], job, engine);
    }
  }

  lemma FrontIsThere(db: Db, job: JobId)
    requires InFront(db, job)
    ensures job in db.jobs
  {
  }

  lemma FirstTick(trail: seq<Db>, picks: seq<JobId>, engine: Engine, envs: seq<TickEnv>)
    requires IsDrain(trail, picks, engine, envs)
    ensures |picks| > 0 ==>
      && picks[0] in trail[0].jobs && IsEarliest(trail[0].jobs, DueAt(trail[0], envs[0]), picks[0])
      && !Stuck(trail[0].jobs[picks[0]], engine, envs[0].txNow)
  {
    assert |picks| > 0 ==> TickAt(trail, picks, engine, envs, 0);
  }

  /**
   A due job in front whose cron has no further occurrence stops the materializer for
   good: in any later state, every drain that does not find it locked handles no job at
   all and ends in its error, and its own due slot is never inserted.  So it goes until
   somebody pauses, deletes, reschedules or reconfigures it, or puts a job before it.
   */
  lemma StuckJobStopsDrains(states: seq<Db>, events: seq<Event>, i: nat, k: nat, job: JobId, engine: Engine,
                            trail: seq<Db>, picks: seq<JobId>, envs: seq<TickEnv>, end: Ending)
    requires IsRun(states, events) && i <= k < |states| && InFront(states[i], job)
    requires Exhausted(engine, states[i].jobs[job].cron, states[i].jobs[job].nextRunAt)
    requires forall n :: i <= n < k ==> LeavesAlone(states[n], events[n], job, states[i].jobs[job], engine)
    requires IsWholeDrain(trail, picks, engine, envs, end) && trail[0] == states[k]
    requires job !in envs[0].locked && states[i].jobs[job].nextRunAt <= envs[0].txNow
    ensures picks == [] && end == StuckAt(job)
    ensures forall t: Time :: states[k].minted[Occurrence(job, t)] == states[i].minted[Occurrence(job, t)]
  {
    FrontIsForever(states, events, i, k, job, engine);
    FirstTick(trail, picks, engine, envs);
    hide IsRun, Next, TickAt;
    var due := DueAt(trail[0], envs[0]);
    assert job in due;
    assert forall j :: IsEarliest(trail[0].jobs, due, j) ==> j == job;
  }

  // ---------------------------------------------------------------------------
  // A run that ends blocked
  // ---------------------------------------------------------------------------

  /** An engine for which one cron has its only occurrence at 5, and all others one every instant. */
  function OnceAtFive(cron: string, t: Time): Cron {
    if cron == "once" then if t < 5 then NextAt(5) else NoNext
    else NextAt(t + 1)
  }

  /**
   Both jobs are registered while their crons have a next occurrence.  Once both are
   due, the first tick is on job 1, fails and changes nothing, and job 2, which has a
   next occurrence, stays due: the run from which every drain fails.
   */
  lemma StuckJobBlocks(a: Job, b: Job)
    returns (states: seq<Db>, events: seq<Event>)
    requires JobCheck(a) && JobCheck(b) && a.name != b.name && !a.paused && !b.paused
    requires a.cron == "once" && b.cron == "often"
    ensures IsRun(states, events) && |events| == 3 && EngineOk(OnceAtFive)
    ensures events[0].action == Action.EnsureJob(1, a, OnceAtFive(a.cron, events[0].txNow))
    ensures events[1].action == Action.EnsureJob(2, b, OnceAtFive(b.cron, events[1].txNow))
    ensures events[2] == Event(Materialize(1, 9, OnceAtFive(a.cron, 10)), 10, 10) && Stuck(a, OnceAtFive, 10)
    ensures states[3] == Advance(states[2], 10)
    ensures DueJobs(states[3].jobs, {}, 10) == {1, 2} && !Stuck(states[3].jobs[2], OnceAtFive, 10)
    ensures InFront(states[2], 1) && states[2].jobs[1].nextRunAt == 5
    ensures Exhausted(OnceAtFive, states[2].jobs[1].cron, 5)
  {
    hide Next, IsRun;
    assert "once"[1] != "often"[1];
    var e0 := Event(Action.EnsureJob(1, a, NextAt(5)), 0, 0);
    var e1 := Event(Action.EnsureJob(2, b, NextAt(6)), 5, 5);
    var e2 := Event(Materialize(1, 9, NoNext), 10, 10);
    var s0 := Empty(0);
    var s1 := Next(s0, e0);
    var s2 := Next(s1, e1);
    var s3 := Next(s2, e2);
    states, events := [s0, s1, s2, s3], [e0, e1, e2];
    RegisterTwo(a, b, e0, e1);
    TickTables(s2, e2);
    ThreeStepRun(states, events);
  }

  lemma RegisterTwo(a: Job, b: Job, e0: Event, e1: Event)
    requires a.name != b.name
    requires e0 == Event(Action.EnsureJob(1, a, NextAt(5)), 0, 0)
    requires e1 == Event(Action.EnsureJob(2, b, NextAt(6)), 5, 5)
    ensures var s1 := Next(Empty(0), e0); var s2 := Next(s1, e1);
      && s1.clock == 0 && s1.jobsCreated == {1}
      && s2.jobs == map[1 := a.(nextRunAt := 5), 2 := b.(nextRunAt := 6)]
      && s2.created == {} && s2.clock == 5
  {
    var s1 := Next(Empty(0), e0);
    assert !NameTaken(Empty(0), a.name);
    assert s1.jobs == map[1 := a.(nextRunAt := 5)];
    assert !NameTaken(s1, b.name);
  }
}
