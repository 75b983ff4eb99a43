/**
 The database as one value: the three tables, the clock, and the history that the
 properties speak about (tokens and ids ever issued, tasks pruned, occurrences ever
 inserted).  `Perform` is the effect of any statement that moves existing tasks, and
 `Inv` is what holds across the tables in every reachable state.
 */
module Tables {
  import opened Rows
  import opened Lease

  datatype Occurrence = Occurrence(job: JobId, at: Time)

  datatype Db = Db(
    runs: map<RunId, Run>,
    attempts: map<Key, Attempt>,
    jobs: map<JobId, Job>,
    clock: Time,
    issued: set<Token>,
    created: set<RunId>,
    pruned: set<RunId>,
    jobsCreated: set<JobId>,
    minted: multiset<Occurrence>)

  function Empty(clock: Time): Db {
    Db(map[], map[], map[], clock, {}, {}, {}, {}, multiset{})
  }

  // ---------------------------------------------------------------------------
  // A task inside the tables
  // ---------------------------------------------------------------------------

  /** The attempts of each task are numbered exactly 1..attempt_count. */
  ghost predicate Contiguous(db: Db) {
    forall k: Key ::
      k in db.attempts <==> k.run in db.runs && 1 <= k.number <= db.runs[k.run].attemptCount
  }

  ghost function View(db: Db, id: RunId): Task
    requires Contiguous(db) && id in db.runs
  {
    var n := db.runs[id].attemptCount;
    Task(db.runs[id], seq(n, i requires 0 <= i < n => db.attempts[Key(id, i + 1)]))
  }

  // ---------------------------------------------------------------------------
  // Statements
  // ---------------------------------------------------------------------------

  function NewKeys(db: Db, moves: map<RunId, Move>): set<Key> {
    set id | id in moves && id in db.runs && moves[id].Start? :: Key(id, db.runs[id].attemptCount + 1)
  }

  function NewTokens(db: Db, moves: map<RunId, Move>): set<Token> {
    set id | id in moves && id in db.runs && moves[id].Start? :: moves[id].token
  }

  /** The attempt row that belongs to the lease `moves` acts on. */
  predicate Current(db: Db, moves: map<RunId, Move>, k: Key) {
    && k.run in moves && k.run in db.runs
    && db.runs[k.run].state == RunState.Running
    && k.number == db.runs[k.run].attemptCount
  }

  function AttemptAt(db: Db, moves: map<RunId, Move>, now: Time, k: Key): Attempt
    requires k in db.attempts || k in NewKeys(db, moves)
  {
    if k in db.attempts then
      if Current(db, moves, k)
      then AttemptAfter(db.attempts[k], db.runs[k.run], moves[k.run], now)
      else db.attempts[k]
    else
      Opened(moves[k.run].worker, moves[k.run].token, now, db.runs[k.run].spec.leaseDuration)
  }

  /** One atomic statement that makes `moves[id]` on every task `id` it names. */
  function Perform(db: Db, moves: map<RunId, Move>, now: Time): Db {
    db.(runs := map id | id in db.runs ::
                  if id in moves then RowAfter(db.runs[id], moves[id], now) else db.runs[id],
        attempts := map k | k in db.attempts.Keys + NewKeys(db, moves) :: AttemptAt(db, moves, now, k),
        clock := now,
        issued := db.issued + NewTokens(db, moves))
  }

  /** A pending task, as both INSERT statements create it. */
  function Newborn(spec: Spec, availableAt: Time): Run {
    Run(spec, RunState.Pending, 0, availableAt, None, None, None, None, None, None)
  }

  function Insert(db: Db, id: RunId, spec: Spec, availableAt: Time, now: Time): Db {
    db.(runs := db.runs[id := Newborn(spec, availableAt)],
        created := db.created + {id},
        clock := now,
        minted := db.minted + (if spec.jobId.Some?
                               then multiset{Occurrence(spec.jobId.value, spec.scheduledFor)}
                               else multiset{}))
  }

  /** DELETE of runs; the foreign key cascades to their attempts. */
  function Delete(db: Db, doomed: set<RunId>, now: Time): Db {
    db.(runs := map id | id in db.runs && id !in doomed :: db.runs[id],
        attempts := map k | k in db.attempts && k.run !in doomed :: db.attempts[k],
        pruned := db.pruned + (doomed * db.runs.Keys),
        clock := now)
  }

  function WithJobs(db: Db, jobs: map<JobId, Job>, now: Time): Db {
    db.(jobs := jobs, jobsCreated := db.jobsCreated + jobs.Keys, clock := now)
  }

  // ---------------------------------------------------------------------------
  // The cross-table invariant
  // ---------------------------------------------------------------------------

  /** No two attempts anywhere carry the same token, and every token was issued. */
  ghost predicate TokensDistinct(db: Db) {
    && (forall k :: k in db.attempts ==> db.attempts[k].leaseToken in db.issued)
    && (forall k, l | k in db.attempts && l in db.attempts ::
          db.attempts[k].leaseToken == db.attempts[l].leaseToken ==> k == l)
  }

  predicate SameDedup(r: Run, s: Run) {
    r.spec.dedupKey.Some? && r.spec.dedupKey == s.spec.dedupKey && r.spec.jobName == s.spec.jobName
  }

  predicate SameOccurrence(r: Run, s: Run) {
    r.spec.jobId.Some? && r.spec.jobId == s.spec.jobId && r.spec.scheduledFor == s.spec.scheduledFor
  }

  /** The two partial unique indexes on `scheduler_runs`. */
  ghost predicate RunsUnique(db: Db) {
    && (forall i, j :: i in db.runs && j in db.runs && SameDedup(db.runs[i], db.runs[j]) ==> i == j)
    && (forall i, j :: i in db.runs && j in db.runs && SameOccurrence(db.runs[i], db.runs[j]) ==> i == j)
  }

  ghost predicate JobsOk(db: Db) {
    && (forall j :: j in db.jobs ==> JobCheck(db.jobs[j]) && j in db.jobsCreated)
    && (forall i, j :: i in db.jobs && j in db.jobs && db.jobs[i].name == db.jobs[j].name ==> i == j)
    && (forall o: Occurrence :: o in db.minted ==> o.job in db.jobsCreated)
    && (forall i :: i in db.runs && db.runs[i].spec.jobId.Some? ==>
          Occurrence(db.runs[i].spec.jobId.value, db.runs[i].spec.scheduledFor) in db.minted)
  }

  ghost predicate TasksOk(db: Db)
    requires Contiguous(db)
  {
    forall id :: id in db.runs ==> TaskOk(View(db, id), db.clock)
  }

  /** Every task ever created is present or was pruned, never both. */
  ghost predicate Accounted(db: Db) {
    db.created == db.runs.Keys + db.pruned && db.runs.Keys !! db.pruned
  }

  ghost predicate Inv(db: Db) {
    && Contiguous(db)
    && TasksOk(db)
    && TokensDistinct(db)
    && RunsUnique(db)
    && JobsOk(db)
    && Accounted(db)
  }

  lemma EmptyInv(clock: Time)
    ensures Inv(Empty(clock))
  {
  }

  // ---------------------------------------------------------------------------
  // Moves on existing tasks
  // ---------------------------------------------------------------------------

  /** Every move is allowed by its WHERE clause and every new token is fresh. */
  ghost predicate MovesLegal(db: Db, moves: map<RunId, Move>, now: Time) {
    && db.clock <= now
    && moves.Keys <= db.runs.Keys
    && (forall id :: id in moves ==> Legal(db.runs[id], moves[id], now))
    && (forall id :: id in moves && moves[id].Start? ==> moves[id].token !in db.issued)
    && (forall i, j | i in moves && j in moves && moves[i].Start? && moves[j].Start? ::
          moves[i].token == moves[j].token ==> i == j)
  }

  function MoveOf(moves: map<RunId, Move>, id: RunId): Move {
    if id in moves then moves[id] else Stay
  }

  lemma PerformContiguous(db: Db, moves: map<RunId, Move>, now: Time)
    requires Contiguous(db) && moves.Keys <= db.runs.Keys
    ensures Contiguous(Perform(db, moves, now))
  {
    var b := Perform(db, moves, now);
    forall k: Key
      ensures k in b.attempts <==> k.run in b.runs && 1 <= k.number <= b.runs[k.run].attemptCount
    {
      assert k in db.attempts <==> k.run in db.runs && 1 <= k.number <= db.runs[k.run].attemptCount;
      if k.run in moves {
        assert b.runs[k.run] == RowAfter(db.runs[k.run], moves[k.run], now);
        assert k in NewKeys(db, moves) <==> moves[k.run].Start? && k.number == db.runs[k.run].attemptCount + 1;
      }
    }
  }

  /** The two-table statement acts on each task as its move of the task automaton. */
  lemma PerformView(db: Db, moves: map<RunId, Move>, now: Time, id: RunId)
    requires Contiguous(db) && moves.Keys <= db.runs.Keys && id in db.runs
    requires id in moves ==> Legal(db.runs[id], moves[id], now)
    requires TaskOk(View(db, id), db.clock)
    ensures Contiguous(Perform(db, moves, now))
    ensures View(Perform(db, moves, now), id) == ApplyMove(View(db, id), MoveOf(moves, id), now)
  {
    PerformContiguous(db, moves, now);
    var b := Perform(db, moves, now);
    var t, u, m := View(db, id), View(b, id), MoveOf(moves, id);
    var v := ApplyMove(t, m, now);
    assert u.run == v.run;
    forall i | 0 <= i < |u.log|
      ensures i < |v.log| && u.log[i] == v.log[i]
    {
      AttemptInView(db, moves, now, id, i);
    }
  }

  lemma AttemptInView(db: Db, moves: map<RunId, Move>, now: Time, id: RunId, i: nat)
    requires Contiguous(db) && moves.Keys <= db.runs.Keys && id in db.runs
    requires Contiguous(Perform(db, moves, now))
    requires id in moves ==> Legal(db.runs[id], moves[id], now)
    requires |View(db, id).log| == db.runs[id].attemptCount
    requires i < |View(Perform(db, moves, now), id).log|
    ensures i < |ApplyMove(View(db, id), MoveOf(moves, id), now).log|
    ensures View(Perform(db, moves, now), id).log[i] == ApplyMove(View(db, id), MoveOf(moves, id), now).log[i]
  {
    var b := Perform(db, moves, now);
    var k := Key(id, i + 1);
    assert k in b.attempts && View(b, id).log[i] == b.attempts[k] == AttemptAt(db, moves, now, k);
    if k in db.attempts {
      assert View(db, id).log[i] == db.attempts[k];
    } else {
      assert k in NewKeys(db, moves);
    }
  }

  lemma PerformTokens(db: Db, moves: map<RunId, Move>, now: Time)
    requires Contiguous(db) && TokensDistinct(db) && MovesLegal(db, moves, now)
    ensures TokensDistinct(Perform(db, moves, now))
  {
    var b := Perform(db, moves, now);
    forall k | k in b.attempts
      ensures b.attempts[k].leaseToken in b.issued
      ensures k in db.attempts ==> b.attempts[k].leaseToken == db.attempts[k].leaseToken
      ensures k !in db.attempts ==>
        k.run in moves && moves[k.run].Start? && b.attempts[k].leaseToken == moves[k.run].token
    {
      if k !in db.attempts {
        assert k in NewKeys(db, moves);
        assert moves[k.run].token in NewTokens(db, moves);
      }
    }
    forall k, l | k in b.attempts && l in b.attempts && b.attempts[k].leaseToken == b.attempts[l].leaseToken
      ensures k == l
    {
      if k !in db.attempts && l !in db.attempts {
        assert k in NewKeys(db, moves) && l in NewKeys(db, moves);
      }
    }
  }

  lemma PerformTasks(db: Db, moves: map<RunId, Move>, now: Time)
    requires Contiguous(db) && TasksOk(db) && MovesLegal(db, moves, now)
    ensures Contiguous(Perform(db, moves, now)) && TasksOk(Perform(db, moves, now))
  {
    var b := Perform(db, moves, now);
    PerformContiguous(db, moves, now);
    forall id | id in b.runs
      ensures TaskOk(View(b, id), now)
    {
      PerformView(db, moves, now, id);
      MoveKeepsTaskOk(View(db, id), MoveOf(moves, id), db.clock, now);
    }
  }

  /** The unique indexes depend only on the immutable columns. */
  lemma SpecsKept(a: Db, b: Db)
    requires RunsUnique(a) && JobsOk(a)
    requires b.jobs == a.jobs && b.jobsCreated == a.jobsCreated && b.minted == a.minted
    requires forall id :: id in b.runs ==> id in a.runs && b.runs[id].spec == a.runs[id].spec
    ensures RunsUnique(b) && JobsOk(b)
  {
    forall i, j | i in b.runs && j in b.runs && SameDedup(b.runs[i], b.runs[j])
      ensures i == j
    {
      assert SameDedup(a.runs[i], a.runs[j]);
    }
    forall i, j | i in b.runs && j in b.runs && SameOccurrence(b.runs[i], b.runs[j])
      ensures i == j
    {
      assert SameOccurrence(a.runs[i], a.runs[j]);
    }
  }

  lemma PerformFrame(db: Db, moves: map<RunId, Move>, now: Time)
    requires RunsUnique(db) && JobsOk(db) && Accounted(db)
    ensures RunsUnique(Perform(db, moves, now)) && JobsOk(Perform(db, moves, now))
    ensures Accounted(Perform(db, moves, now))
  {
    var b := Perform(db, moves, now);
    assert b.runs.Keys == db.runs.Keys;
    forall id | id in b.runs
      ensures b.runs[id].spec == db.runs[id].spec
    {
    }
    SpecsKept(db, b);
  }

  lemma PerformInv(db: Db, moves: map<RunId, Move>, now: Time)
    requires Inv(db) && MovesLegal(db, moves, now)
    ensures Inv(Perform(db, moves, now))
  {
    PerformTasks(db, moves, now);
    PerformTokens(db, moves, now);
    PerformFrame(db, moves, now);
  }

  // ---------------------------------------------------------------------------
  // Inserting and deleting tasks
  // ---------------------------------------------------------------------------

  lemma SameView(a: Db, b: Db, id: RunId)
    requires Contiguous(a) && Contiguous(b)
    requires id in a.runs && id in b.runs && a.runs[id] == b.runs[id]
    requires forall k: Key :: k.run == id && k in a.attempts && k in b.attempts ==> a.attempts[k] == b.attempts[k]
    ensures View(a, id) == View(b, id)
  {
    var s, t := View(a, id), View(b, id);
    forall i | 0 <= i < |s.log|
      ensures s.log[i] == t.log[i]
    {
      assert Key(id, i + 1) in a.attempts && Key(id, i + 1) in b.attempts;
    }
  }

  lemma TaskOkLater(t: Task, clock: Time, now: Time)
    requires TaskOk(t, clock) && clock <= now
    ensures TaskOk(t, now)
  {
    MoveKeepsTaskOk(t, Stay, clock, now);
  }

  ghost predicate CanInsert(db: Db, id: RunId, spec: Spec, now: Time) {
    && db.clock <= now && id !in db.created && SpecCheck(spec)
    && (spec.jobId.Some? ==> spec.jobId.value in db.jobsCreated)
    && (forall i :: i in db.runs ==>
          !SameDedup(Newborn(spec, now), db.runs[i]) && !SameOccurrence(Newborn(spec, now), db.runs[i]))
  }

  lemma InsertUnique(db: Db, id: RunId, spec: Spec, availableAt: Time, now: Time)
    requires RunsUnique(db) && CanInsert(db, id, spec, now)
    ensures RunsUnique(Insert(db, id, spec, availableAt, now))
  {
    var b := Insert(db, id, spec, availableAt, now);
    forall i, j | i in b.runs && j in b.runs && i != j
      ensures !SameDedup(b.runs[i], b.runs[j]) && !SameOccurrence(b.runs[i], b.runs[j])
    {
      var other := if i == id then j else i;
      assert other in db.runs ==> !SameDedup(Newborn(spec, now), db.runs[other]);
    }
  }

  lemma InsertFrame(db: Db, id: RunId, spec: Spec, availableAt: Time, now: Time)
    requires JobsOk(db) && Accounted(db) && CanInsert(db, id, spec, now)
    ensures JobsOk(Insert(db, id, spec, availableAt, now))
    ensures Accounted(Insert(db, id, spec, availableAt, now))
  {
  }

  lemma InsertInv(db: Db, id: RunId, spec: Spec, availableAt: Time, now: Time)
    requires Inv(db) && CanInsert(db, id, spec, now)
    ensures Inv(Insert(db, id, spec, availableAt, now))
  {
    var b := Insert(db, id, spec, availableAt, now);
    assert Contiguous(b);
    TasksSame(db, b, {id});
    InsertUnique(db, id, spec, availableAt, now);
    InsertFrame(db, id, spec, availableAt, now);
  }

  /** Tasks that a statement does not touch stay well formed as the clock advances. */
  lemma TasksSame(a: Db, b: Db, newborn: set<RunId>)
    requires Contiguous(a) && TasksOk(a) && Contiguous(b) && a.clock <= b.clock
    requires forall id :: id in b.runs && id !in newborn ==> id in a.runs && b.runs[id] == a.runs[id]
    requires forall id :: id in b.runs && id in newborn ==>
      SpecCheck(b.runs[id].spec) && b.runs[id] == Newborn(b.runs[id].spec, b.runs[id].availableAt)
    requires forall k :: k in b.attempts ==> k in a.attempts && b.attempts[k] == a.attempts[k]
    ensures TasksOk(b)
  {
    forall i | i in b.runs
      ensures TaskOk(View(b, i), b.clock)
    {
      if i !in newborn {
        SameView(a, b, i);
        TaskOkLater(View(a, i), a.clock, b.clock);
      }
    }
  }

  lemma DeleteFrame(db: Db, doomed: set<RunId>, now: Time)
    requires TokensDistinct(db) && Accounted(db)
    ensures TokensDistinct(Delete(db, doomed, now)) && Accounted(Delete(db, doomed, now))
  {
  }

  lemma DeleteInv(db: Db, doomed: set<RunId>, now: Time)
    requires Inv(db) && db.clock <= now
    ensures Inv(Delete(db, doomed, now))
  {
    var b := Delete(db, doomed, now);
    assert Contiguous(b);
    hide TaskOk;
    TasksSame(db, b, {});
    SpecsKept(db, b);
    DeleteFrame(db, doomed, now);
    hide TasksOk, TokensDistinct, Accounted;
  }

  lemma WithJobsInv(db: Db, jobs: map<JobId, Job>, now: Time)
    requires Inv(db) && db.clock <= now
    requires forall j :: j in jobs ==> JobCheck(jobs[j])
    requires forall i, j :: i in jobs && j in jobs && jobs[i].name == jobs[j].name ==> i == j
    ensures Inv(WithJobs(db, jobs, now))
  {
    var b := WithJobs(db, jobs, now);
    assert Contiguous(b);
    TasksSame(db, b, {});
  }

  // ---------------------------------------------------------------------------
  // What never changes back, across all tables
  // ---------------------------------------------------------------------------

  ghost predicate Evolves(a: Db, b: Db)
    requires Contiguous(a) && Contiguous(b)
  {
    && a.clock <= b.clock
    && a.issued <= b.issued && a.created <= b.created && a.pruned <= b.pruned
    && a.jobsCreated <= b.jobsCreated && a.minted <= b.minted
    && (forall id :: id in a.runs && id in b.runs ==>
          TaskEvolves(View(a, id), View(b, id), a.clock, a.issued))
    && (forall id :: id in b.runs && id in a.created ==> id in a.runs)
    && (forall id :: id in a.runs ==> id in a.created && (id in b.runs || id in b.pruned))
    && (forall k :: k in b.attempts && k.run !in a.runs ==> b.attempts[k].leaseToken !in a.issued)
  }

  lemma EvolvesTrans(a: Db, b: Db, c: Db)
    requires Contiguous(a) && Contiguous(b) && Contiguous(c)
    requires Evolves(a, b) && Evolves(b, c)
    ensures Evolves(a, c)
  {
    forall id | id in a.runs && id in c.runs
      ensures TaskEvolves(View(a, id), View(c, id), a.clock, a.issued)
    {
      assert id in b.created && id in b.runs;
      EvolvesTransitive(View(a, id), View(b, id), View(c, id), a.clock, b.clock, a.issued, b.issued);
    }
    forall k | k in c.attempts && k.run !in a.runs
      ensures c.attempts[k].leaseToken !in a.issued
    {
      if k.run in b.runs {
        AttemptsEvolve(View(b, k.run), View(c, k.run), b.clock, b.issued, k.number - 1);
        assert View(c, k.run).log[k.number - 1] == c.attempts[Key(k.run, k.number - 1 + 1)] == c.attempts[k];
        if k.number <= b.runs[k.run].attemptCount {
          assert k in b.attempts;
          assert View(b, k.run).log[k.number - 1] == b.attempts[Key(k.run, k.number - 1 + 1)] == b.attempts[k];
        }
      }
    }
  }

  /** The token of an attempt is the one it was opened with, or is new. */
  lemma AttemptsEvolve(t: Task, u: Task, clock: Time, issued: set<Token>, i: nat)
    requires TaskEvolves(t, u, clock, issued) && i < |u.log|
    ensures if i < |t.log| then u.log[i].leaseToken == t.log[i].leaseToken
            else u.log[i].leaseToken !in issued
  {
    if i < |t.log| {
      assert AttemptEvolves(t.log[i], u.log[i], clock);
    }
  }

  lemma PerformEvolves(db: Db, moves: map<RunId, Move>, now: Time)
    requires Inv(db) && MovesLegal(db, moves, now)
    ensures Inv(Perform(db, moves, now)) && Evolves(db, Perform(db, moves, now))
  {
    PerformInv(db, moves, now);
    var b := Perform(db, moves, now);
    forall id | id in db.runs && id in b.runs
      ensures TaskEvolves(View(db, id), View(b, id), db.clock, db.issued)
    {
      PerformView(db, moves, now, id);
      MoveEvolves(View(db, id), MoveOf(moves, id), db.clock, now, db.issued);
    }
  }

  /** A statement that leaves every surviving task as it was. */
  lemma UntouchedEvolves(a: Db, b: Db)
    requires Inv(a) && Inv(b) && a.clock <= b.clock
    requires a.issued <= b.issued && a.created <= b.created && a.pruned <= b.pruned
    requires a.jobsCreated <= b.jobsCreated && a.minted <= b.minted
    requires forall id :: id in a.runs && id in b.runs ==> a.runs[id] == b.runs[id]
    requires forall k :: k in b.attempts ==> k in a.attempts && b.attempts[k] == a.attempts[k]
    requires forall id :: id in b.runs && id !in a.runs ==> id !in a.created
    requires forall id :: id in a.runs && id !in b.runs ==> id in b.pruned
    ensures Evolves(a, b)
  {
    hide TaskEvolves, TasksOk, RunsUnique, JobsOk;
    forall id | id in a.runs && id in b.runs
      ensures TaskEvolves(View(a, id), View(b, id), a.clock, a.issued)
    {
      SameView(a, b, id);
      EvolvesToItself(View(a, id), a.clock, a.issued);
    }
  }

  lemma EvolvesToItself(t: Task, clock: Time, issued: set<Token>)
    ensures TaskEvolves(t, t, clock, issued)
  {
  }

  lemma EvolvesReflexive(db: Db)
    requires Inv(db)
    ensures Evolves(db, db)
  {
    UntouchedEvolves(db, db);
  }
}
