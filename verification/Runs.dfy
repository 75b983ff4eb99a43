/**
 Whole runs of the scheduler: any number of workers, producers and maintenance loops
 interleaving their transactions in any order, from an empty database.
 */
module Runs {
  import opened Rows
  import opened Lease
  import opened Tables
  import opened Protocol

  /** A statement snapshot is a state the database has been in. */
  ghost predicate SnapshotFrom(a: Action, past: seq<Db>) {
    match a
    case Recover(_, snap) => snap in past
    case Cancel(_, snap) => snap in past
    case _ => true
  }

  ghost predicate StepAt(states: seq<Db>, events: seq<Event>, i: nat)
    requires |states| == |events| + 1 && i < |events|
  {
    && Enabled(states[i], events[i])
    && states[i + 1] == Next(states[i], events[i])
    && SnapshotFrom(events[i].action, states[..i + 1])
  }

  ghost predicate IsRun(states: seq<Db>, events: seq<Event>) {
    && |states| == |events| + 1
    && states[0] == Empty(states[0].clock)
    && forall i :: 0 <= i < |events| ==> StepAt(states, events, i)
  }

  lemma RunLength(states: seq<Db>, events: seq<Event>)
    requires IsRun(states, events)
    ensures |states| == |events| + 1
  {
  }

  /** A run goes on with any enabled transaction, whose snapshot the caller owes. */
  lemma RunGrows(states: seq<Db>, events: seq<Event>, e: Event)
    requires IsRun(states, events) && Enabled(states[|events|], e) && SnapshotFrom(e.action, states)
    ensures IsRun(states + [Next(states[|events|], e)], events + [e])
  {
    hide Enabled, Next;
    var s, t := states + [Next(states[|events|], e)], events + [e];
    forall i | 0 <= i < |t|
      ensures StepAt(s, t, i)
    {
      assert s[..i + 1] == states[..i + 1];
      if i < |events| {
        assert StepAt(states, events, i);
      } else {
        assert states[..i + 1] == states;
      }
    }
  }

  lemma TwoStepRun(states: seq<Db>, events: seq<Event>)
    requires |states| == 3 && |events| == 2 && states[0] == Empty(states[0].clock)
    requires StepAt(states, events, 0) && StepAt(states, events, 1)
    ensures IsRun(states, events)
  {
  }

  lemma ThreeStepRun(states: seq<Db>, events: seq<Event>)
    requires |states| == 4 && |events| == 3 && states[0] == Empty(states[0].clock)
    requires StepAt(states, events, 0) && StepAt(states, events, 1) && StepAt(states, events, 2)
    ensures IsRun(states, events)
  {
  }

  // ---------------------------------------------------------------------------
  // The invariant and the order of states
  // ---------------------------------------------------------------------------

  lemma {:induction false} RunInv(states: seq<Db>, events: seq<Event>, i: nat)
    requires IsRun(states, events) && i < |states|
    ensures Inv(states[i])
  {
    hide Inv, Evolves, Next, Enabled;
    if i == 0 {
      EmptyInv(states[0].clock);
    } else {
      RunInv(states, events, i - 1);
      assert StepAt(states, events, i - 1);
      StepKeeps(states[i - 1], events[i - 1]);
    }
  }

  lemma {:induction false} RunEvolves(states: seq<Db>, events: seq<Event>, i: nat, j: nat)
    requires IsRun(states, events) && i <= j < |states|
    ensures Inv(states[i]) && Inv(states[j]) && Evolves(states[i], states[j])
    decreases j - i
  {
    hide Evolves, Next, Enabled, TasksOk, Contiguous, TokensDistinct, RunsUnique, JobsOk, Accounted;
    RunInv(states, events, i);
    RunInv(states, events, j);
    if i == j {
      EvolvesReflexive(states[i]);
    } else {
      RunEvolves(states, events, i, j - 1);
      assert StepAt(states, events, j - 1);
      StepKeeps(states[j - 1], events[j - 1]);
      EvolvesTrans(states[i], states[j - 1], states[j]);
    }
  }

  // ---------------------------------------------------------------------------
  // One open attempt per running task
  // ---------------------------------------------------------------------------

  ghost function OpenAttempts(db: Db, id: RunId): set<Key> {
    set k | k in db.attempts && k.run == id && db.attempts[k].outcome.None?
  }

  predicate CarriesLease(a: Attempt, r: Run) {
    && r.workerId == Some(a.workerId) && r.leaseToken == Some(a.leaseToken)
    && r.startedAt == Some(a.startedAt) && r.leaseExpiresAt == Some(a.leaseExpiresAt)
  }

  lemma AttemptIsLogEntry(db: Db, k: Key)
    requires Contiguous(db) && k in db.attempts
    ensures k.run in db.runs && 1 <= k.number <= |View(db, k.run).log|
    ensures db.attempts[k] == View(db, k.run).log[k.number - 1]
  {
    assert k == Key(k.run, k.number - 1 + 1);
  }

  /** Only the last attempt of a task can be open. */
  lemma OpenIsLast(db: Db, k: Key)
    requires Contiguous(db) && TasksOk(db) && k in db.attempts && db.attempts[k].outcome.None?
    ensures k.run in db.runs && k.number == db.runs[k.run].attemptCount
    ensures db.runs[k.run].state == RunState.Running && CarriesLease(db.attempts[k], db.runs[k.run])
  {
    AttemptIsLogEntry(db, k);
    var t := View(db, k.run);
    assert TaskOk(t, db.clock);
    OpenIsLastEntry(t, db.clock, k.number - 1);
  }

  lemma RunningHasOpenAttempt(db: Db, id: RunId)
    requires Contiguous(db) && TasksOk(db) && id in db.runs && db.runs[id].state == RunState.Running
    ensures Key(id, db.runs[id].attemptCount) in OpenAttempts(db, id)
    ensures CarriesLease(db.attempts[Key(id, db.runs[id].attemptCount)], db.runs[id])
  {
    var t := View(db, id);
    assert TaskOk(t, db.clock);
    var k := Key(id, db.runs[id].attemptCount);
    assert k in db.attempts;
    AttemptIsLogEntry(db, k);
  }

  /**
   In every reachable state a task is running exactly when it has an open attempt, and
   then it has one, numbered attempt_count and carrying the lease of the row.
   */
  lemma RunningIffOneOpenAttempt(states: seq<Db>, events: seq<Event>, i: nat, id: RunId)
    requires IsRun(states, events) && i < |states| && id in states[i].runs
    ensures var db := states[i]; var last := Key(id, db.runs[id].attemptCount);
      if db.runs[id].state == RunState.Running
      then OpenAttempts(db, id) == {last} && CarriesLease(db.attempts[last], db.runs[id])
      else OpenAttempts(db, id) == {}
  {
    RunInv(states, events, i);
    var db := states[i];
    forall k | k in OpenAttempts(db, id)
      ensures k == Key(id, db.runs[id].attemptCount) && db.runs[id].state == RunState.Running
    {
      OpenIsLast(db, k);
    }
    if db.runs[id].state == RunState.Running {
      RunningHasOpenAttempt(db, id);
    }
  }

  /** The rows `UPDATE scheduler_run_attempts ... WHERE lease_token = $1 AND outcome IS NULL` finds. */
  function OpenFor(attempts: map<Key, Attempt>, token: Token): set<Key> {
    set k | k in attempts && OpenWith(attempts[k], token)
  }

  /** So RECORD_ATTEMPT and RENEW_ATTEMPT touch one row: `attempts != 1` cannot happen. */
  lemma TokenFindsOneAttempt(db: Db, id: RunId, token: Token)
    requires Inv(db) && id in db.runs
    requires db.runs[id].state == RunState.Running && db.runs[id].leaseToken == Some(token)
    ensures OpenFor(db.attempts, token) == {Key(id, db.runs[id].attemptCount)}
    ensures |OpenFor(db.attempts, token)| == 1
  {
    RunningHasOpenAttempt(db, id);
    var last := Key(id, db.runs[id].attemptCount);
    assert forall k :: k in OpenFor(db.attempts, token) ==> k == last;
    assert OpenFor(db.attempts, token) == {last};
  }

  // ---------------------------------------------------------------------------
  // Fencing
  // ---------------------------------------------------------------------------

  predicate Holds(db: Db, id: RunId, token: Token) {
    id in db.runs && db.runs[id].state == RunState.Running && db.runs[id].leaseToken == Some(token)
  }

  /**
   A token that is current was current at every earlier state that had issued it; its
   deadline never moved back, and not at all once it had passed.
   */
  lemma CurrentWasCurrent(a: Db, b: Db, id: RunId, token: Token)
    requires Inv(a) && Inv(b) && Evolves(a, b) && token in a.issued && Holds(b, id, token)
    ensures Holds(a, id, token) && a.runs[id].attemptCount == b.runs[id].attemptCount
    ensures a.runs[id].leaseExpiresAt.Some? && b.runs[id].leaseExpiresAt.Some?
    ensures a.runs[id].leaseExpiresAt.value <= b.runs[id].leaseExpiresAt.value
    ensures a.runs[id].leaseExpiresAt.value <= a.clock ==> b.runs[id].leaseExpiresAt == a.runs[id].leaseExpiresAt
    ensures a.runs[id].spec == b.runs[id].spec
  {
    hide TasksOk, TokensDistinct, RunsUnique, JobsOk, Accounted, TaskOk, TaskEvolves;
    RunningHasOpenAttempt(b, id);
    assert id in a.runs;
    TaskAt(a, id);
    TaskAt(b, id);
    assert TaskEvolves(View(a, id), View(b, id), a.clock, a.issued);
    CurrentEntry(View(a, id), View(b, id), a.clock, b.clock, a.issued, token);
  }

  lemma CurrentEntry(t: Task, u: Task, c1: Time, c2: Time, issued: set<Token>, token: Token)
    requires TaskOk(t, c1) && TaskOk(u, c2) && TaskEvolves(t, u, c1, issued) && token in issued
    requires u.run.state == RunState.Running && u.run.leaseToken == Some(token)
    ensures t.run.state == RunState.Running && t.run.leaseToken == Some(token)
    ensures t.run.attemptCount == u.run.attemptCount && t.run.spec == u.run.spec
    ensures t.run.leaseExpiresAt.Some? && u.run.leaseExpiresAt.Some?
    ensures t.run.leaseExpiresAt.value <= u.run.leaseExpiresAt.value
    ensures t.run.leaseExpiresAt.value <= c1 ==> u.run.leaseExpiresAt == t.run.leaseExpiresAt
  {
    var n := |u.log| - 1;
    AttemptsEvolve(t, u, c1, issued, n);
    assert AttemptEvolves(t.log[n], u.log[n], c1);
    OpenIsLastEntry(t, c1, n);
  }

  /** A live token was live before, if it had been issued before. */
  lemma LiveWasLive(a: Db, b: Db, id: RunId, token: Token, now: Time)
    requires Inv(a) && Inv(b) && Evolves(a, b)
    requires token in a.issued && b.clock <= now && LiveIn(b, id, token, now)
    ensures LiveIn(a, id, token, a.clock)
  {
    CurrentWasCurrent(a, b, id, token);
  }

  lemma OpenIsLastEntry(t: Task, clock: Time, n: nat)
    requires TaskOk(t, clock) && n < |t.log| && t.log[n].outcome.None?
    ensures n == |t.log| - 1 && t.run.state == RunState.Running && CarriesLease(t.log[n], t.run)
  {
    assert n + 1 < |t.log| ==> Succeeds(t.log[n + 1 - 1], t.log[n + 1], t.run.spec.retryBackoff);
  }

  /**
   A token that is expired, superseded, cleared by cancellation or recovery, or whose
   task was pruned is refused for ever after; an expired lease is never revived.
   */
  lemma DeadTokenStaysDead(states: seq<Db>, events: seq<Event>, i: nat, j: nat,
                           id: RunId, token: Token, now: Time)
    requires IsRun(states, events) && i <= j < |states|
    requires token in states[i].issued && !LiveIn(states[i], id, token, states[i].clock)
    requires states[j].clock <= now
    ensures !LiveIn(states[j], id, token, now)
  {
    RunEvolves(states, events, i, j);
    if LiveIn(states[j], id, token, now) {
      LiveWasLive(states[i], states[j], id, token, now);
    }
  }

  predicate WorkerCall(a: Action, id: RunId, token: Token) {
    || (a.Renew? && a.id == id && a.token == token)
    || (a.Finalize? && a.id == id && a.token == token)
    || (a.Fail? && a.id == id && a.token == token)
  }

  lemma PerformNothing(db: Db, now: Time)
    ensures Perform(db, map[], now) == Advance(db, now)
  {
    assert NewKeys(db, map[]) == {} && NewTokens(db, map[]) == {};
    var b := Perform(db, map[], now);
    assert b.runs == db.runs;
    assert b.attempts == db.attempts;
  }

  /** No later finalize, fail or renew with a dead token changes any row. */
  lemma Fenced(states: seq<Db>, events: seq<Event>, i: nat, j: nat, id: RunId, token: Token)
    requires IsRun(states, events) && i <= j < |events|
    requires token in states[i].issued && !LiveIn(states[i], id, token, states[i].clock)
    requires WorkerCall(events[j].action, id, token)
    ensures states[j + 1] == Advance(states[j], events[j].now)
  {
    assert StepAt(states, events, j);
    DeadTokenStaysDead(states, events, i, j, id, token, events[j].now);
    assert Moves(states[j], events[j]) == map[];
    PerformNothing(states[j], events[j].now);
  }

  /** A refusal is final: a call that found no row will never find one. */
  lemma RefusedForever(states: seq<Db>, events: seq<Event>, i: nat, j: nat, id: RunId, token: Token)
    requires IsRun(states, events) && i < j < |events|
    requires token in states[i].issued && !LiveIn(states[i], id, token, events[i].now)
    requires WorkerCall(events[i].action, id, token) && WorkerCall(events[j].action, id, token)
    ensures states[j + 1] == Advance(states[j], events[j].now)
  {
    assert StepAt(states, events, i);
    assert Moves(states[i], events[i]) == map[];
    PerformNothing(states[i], events[i].now);
    Fenced(states, events, i + 1, j, id, token);
  }

  /** Tokens are never reused: two claims of a run never hand out the same token. */
  lemma ClaimsNeverShareTokens(states: seq<Db>, events: seq<Event>, i: nat, j: nat, x: RunId, y: RunId)
    requires IsRun(states, events) && i <= j < |events|
    requires events[i].action.Claim? && events[j].action.Claim?
    requires x in events[i].action.picked && y in events[j].action.picked
    requires events[i].action.picked[x] == events[j].action.picked[y]
    ensures i == j && x == y
  {
    hide Inv, Next, TaskEvolves, Contiguous;
    assert StepAt(states, events, i) && StepAt(states, events, j);
    if i < j {
      ClaimIssues(states[i], events[i], x);
      RunEvolves(states, events, i + 1, j);
    }
  }

  lemma ClaimIssues(db: Db, e: Event, id: RunId)
    requires Enabled(db, e) && e.action.Claim? && id in e.action.picked
    ensures e.action.picked[id] in Next(db, e).issued
  {
    var moves := Moves(db, e);
    assert id in moves && moves[id].token in NewTokens(db, moves);
  }

  // ---------------------------------------------------------------------------
  // Terminal states
  // ---------------------------------------------------------------------------

  lemma TerminalIsForever(states: seq<Db>, events: seq<Event>, i: nat, j: nat, id: RunId)
    requires IsRun(states, events) && i <= j < |states|
    requires id in states[i].runs && Terminal(states[i].runs[id]) && id in states[j].runs
    ensures states[j].runs[id] == states[i].runs[id]
    ensures Inv(states[i]) && Inv(states[j]) && View(states[j], id) == View(states[i], id)
  {
    RunEvolves(states, events, i, j);
  }

  /** A task id that is gone stays gone. */
  lemma PrunedIsForever(states: seq<Db>, events: seq<Event>, i: nat, j: nat, id: RunId)
    requires IsRun(states, events) && i <= j < |states|
    requires id in states[i].created && id !in states[i].runs
    ensures id !in states[j].runs
  {
    RunEvolves(states, events, i, j);
  }

  /** Name, payload, schedule, priority and policy of a task never change. */
  lemma SpecIsImmutable(states: seq<Db>, events: seq<Event>, i: nat, j: nat, id: RunId)
    requires IsRun(states, events) && i <= j < |states|
    requires id in states[i].runs && id in states[j].runs
    ensures states[j].runs[id].spec == states[i].runs[id].spec
  {
    RunEvolves(states, events, i, j);
    assert TaskEvolves(View(states[i], id), View(states[j], id), states[i].clock, states[i].issued);
  }

  /**
   The answers that claim the end of a task: finalize = Applied, fail = Failed,
   recovery to failed, cancel = Cancelled.
   */
  predicate Wins(db: Db, e: Event, id: RunId) {
    match e.action
    case Finalize(x, token, _) => x == id && LiveIn(db, id, token, e.now)
    case Fail(x, token, _, retryable) =>
      x == id && LiveIn(db, id, token, e.now) && !(retryable && AttemptsRemain(db.runs[id]))
    case Recover(batch, snap) =>
      id in batch && id in db.runs && AttemptRecorded(db, snap, id) && !AttemptsRemain(db.runs[id])
    case Cancel(x, snap) => x == id && Cancellable(db, snap, id)
    case _ => false
  }

  predicate Ends(db: Db, e: Event, id: RunId) {
    && id in db.runs && !Terminal(db.runs[id])
    && id in Next(db, e).runs && Terminal(Next(db, e).runs[id])
  }

  /** A winning answer is given exactly by the step that ends the task. */
  lemma WinsIffEnds(db: Db, e: Event, id: RunId)
    requires Inv(db) && Enabled(db, e)
    ensures Wins(db, e, id) <==> Ends(db, e, id)
  {
    if id in db.runs && id in Next(db, e).runs {
      StepRefinesMove(db, e, id);
      WinsByMove(db, e, id);
    } else if id in db.runs {
      OnlyPruneRemoves(db, e, id);
    }
  }

  lemma OnlyPruneRemoves(db: Db, e: Event, id: RunId)
    requires Enabled(db, e) && id in db.runs && id !in Next(db, e).runs
    ensures e.action.Prune? && id in e.action.doomed && Terminal(db.runs[id])
  {
  }

  lemma WinsByMove(db: Db, e: Event, id: RunId)
    requires Enabled(db, e) && id in db.runs
    ensures Wins(db, e, id) <==>
      !Terminal(db.runs[id]) && Terminal(RowAfter(db.runs[id], MoveOf(Moves(db, e), id), e.now))
  {
  }

  lemma AtMostOneWinner(states: seq<Db>, events: seq<Event>, i: nat, j: nat, id: RunId)
    requires IsRun(states, events) && i <= j < |events|
    requires Wins(states[i], events[i], id) && Wins(states[j], events[j], id)
    ensures i == j
  {
    hide Inv, Next, Enabled, Wins;
    assert StepAt(states, events, i) && StepAt(states, events, j);
    RunInv(states, events, i);
    RunInv(states, events, j);
    WinsIffEnds(states[i], events[i], id);
    WinsIffEnds(states[j], events[j], id);
    if i < j {
      TerminalIsForever(states, events, i + 1, j, id);
    }
  }

  /** A task that has ended was ended by one of the winning answers. */
  lemma {:induction false} TerminalHasWinner(states: seq<Db>, events: seq<Event>, j: nat, id: RunId) returns (k: nat)
    requires IsRun(states, events) && j < |states| && id in states[j].runs && Terminal(states[j].runs[id])
    ensures k < j && Wins(states[k], events[k], id)
  {
    hide Inv, Next, Enabled, Wins;
    assert j > 0;
    var db, e := states[j - 1], events[j - 1];
    assert StepAt(states, events, j - 1);
    RunInv(states, events, j - 1);
    if id in db.runs && Terminal(db.runs[id]) {
      k := TerminalHasWinner(states, events, j - 1, id);
    } else {
      if id !in db.runs {
        NewTaskIsPending(db, e, id);
      }
      WinsIffEnds(db, e, id);
      k := j - 1;
    }
  }

  // ---------------------------------------------------------------------------
  // Two claims of one task
  // ---------------------------------------------------------------------------

  /** The step that takes a running task back to pending. */
  predicate Requeues(db: Db, e: Event, id: RunId) {
    && id in db.runs && db.runs[id].state == RunState.Running
    && id in Next(db, e).runs && Next(db, e).runs[id].state == RunState.Pending
  }

  /** Only a retryable failure its holder reports, or a recovery, requeues a task. */
  lemma RequeuedBy(db: Db, e: Event, id: RunId)
    requires Inv(db) && Enabled(db, e) && Requeues(db, e, id)
    ensures
      || (e.action.Fail? && e.action.id == id && e.action.retryable && LiveIn(db, id, e.action.token, e.now))
      || (e.action.Recover? && id in e.action.batch && Overdue(db.runs[id], e.now))
  {
    hide Next, Enabled, Contiguous, TasksOk, TokensDistinct, RunsUnique, JobsOk, Accounted, Moves;
    StepRefinesMove(db, e, id);
    RequeueMove(db, e, id);
  }

  lemma RequeueMove(db: Db, e: Event, id: RunId)
    requires id in db.runs && db.runs[id].state == RunState.Running
    requires Legal(db.runs[id], MoveOf(Moves(db, e), id), e.now)
    requires RowAfter(db.runs[id], MoveOf(Moves(db, e), id), e.now).state == RunState.Pending
    ensures
      || (e.action.Fail? && e.action.id == id && e.action.retryable && LiveIn(db, id, e.action.token, e.now))
      || (e.action.Recover? && id in e.action.batch && Overdue(db.runs[id], e.now))
  {
    hide AttemptRecorded, Cancellable;
  }

  lemma {:induction false} LeavesRunning(states: seq<Db>, events: seq<Event>, a: nat, b: nat, id: RunId)
    returns (n: nat)
    requires IsRun(states, events) && a <= b < |states|
    requires id in states[a].runs && states[a].runs[id].state == RunState.Running
    requires id in states[b].runs && states[b].runs[id].state == RunState.Pending
    ensures a <= n < b && Requeues(states[n], events[n], id)
    decreases b - a
  {
    hide Inv, Next, Enabled, TaskEvolves;
    assert a < b;
    assert StepAt(states, events, a);
    RunEvolves(states, events, a, a + 1);
    RunEvolves(states, events, a + 1, b);
    assert id in states[a + 1].runs;
    if states[a + 1].runs[id].state == RunState.Running {
      n := LeavesRunning(states, events, a + 1, b, id);
    } else {
      if Terminal(states[a + 1].runs[id]) {
        TerminalIsForever(states, events, a + 1, b, id);
      }
      n := a;
    }
  }

  /**
   Claims are disjoint: between two claims of one task some step requeued it, and the
   later claim opens a higher attempt number.
   */
  lemma ClaimsAreDisjoint(states: seq<Db>, events: seq<Event>, i: nat, j: nat, id: RunId) returns (n: nat)
    requires IsRun(states, events) && i < j < |events|
    requires events[i].action.Claim? && id in events[i].action.picked
    requires events[j].action.Claim? && id in events[j].action.picked
    ensures i < n < j && Requeues(states[n], events[n], id)
    ensures id in states[i].runs && id in states[j].runs
    ensures states[i].runs[id].attemptCount < states[j].runs[id].attemptCount
  {
    hide Inv, Next, TaskEvolves, Contiguous;
    assert StepAt(states, events, i) && StepAt(states, events, j);
    RunInv(states, events, i);
    ClaimStarts(states[i], events[i], id);
    n := LeavesRunning(states, events, i + 1, j, id);
    AttemptsGrow(states, events, i + 1, j, id);
  }

  lemma ClaimStarts(db: Db, e: Event, id: RunId)
    requires Enabled(db, e) && e.action.Claim? && id in e.action.picked
    ensures id in db.runs && id in Next(db, e).runs
    ensures Next(db, e).runs[id] == RowAfter(db.runs[id], Start(e.action.worker, e.action.picked[id]), e.now)
  {
  }

  lemma AttemptsGrow(states: seq<Db>, events: seq<Event>, i: nat, j: nat, id: RunId)
    requires IsRun(states, events) && i <= j < |states| && id in states[i].runs && id in states[j].runs
    ensures states[i].runs[id].attemptCount <= states[j].runs[id].attemptCount
  {
    hide IsRun;
    RunEvolves(states, events, i, j) by { hide Inv; }
    assert TaskEvolves(View(states[i], id), View(states[j], id), states[i].clock, states[i].issued);
  }

  // ---------------------------------------------------------------------------
  // Bounded work
  // ---------------------------------------------------------------------------

  predicate Changed(a: Db, b: Db, id: RunId) {
    id in a.runs && id in b.runs && a.runs[id].state != b.runs[id].state
  }

  /** How many of the first `n` steps changed the state of the task. */
  function Changes(states: seq<Db>, id: RunId, n: nat): nat
    requires n < |states|
  {
    if n == 0 then 0
    else Changes(states, id, n - 1) + if Changed(states[n - 1], states[n], id) then 1 else 0
  }

  lemma TaskAt(db: Db, id: RunId)
    requires Contiguous(db) && TasksOk(db) && id in db.runs
    ensures TaskOk(View(db, id), db.clock)
  {
  }

  /** One step pays for its own state change out of the task's budget. */
  lemma StepSpendsBudget(db: Db, e: Event, id: RunId)
    requires Inv(db) && Enabled(db, e) && id in db.runs && id in Next(db, e).runs
    ensures Next(db, e).runs[id].spec == db.runs[id].spec
    ensures 0 <= Budget(Next(db, e).runs[id])
    ensures Budget(Next(db, e).runs[id]) + (if Changed(db, Next(db, e), id) then 1 else 0) <= Budget(db.runs[id])
  {
    hide Enabled, Next, Contiguous, TasksOk, TokensDistinct, RunsUnique, JobsOk, Accounted, LogOk, Agrees;
    StepRefinesMove(db, e, id);
    TaskAt(db, id);
    MoveSpendsBudget(View(db, id), MoveOf(Moves(db, e), id), db.clock, e.now);
  }

  /** The steps taken and the budget left never exceed twice the attempts allowed. */
  lemma {:induction false} ChangesWithinBudget(states: seq<Db>, events: seq<Event>, id: RunId, n: nat)
    requires IsRun(states, events) && n < |states|
    ensures id !in states[n].created ==> Changes(states, id, n) == 0
    ensures id in states[n].runs ==>
      && Changes(states, id, n) + Budget(states[n].runs[id]) <= 2 * states[n].runs[id].spec.maxAttempts
      && 0 <= Budget(states[n].runs[id])
  {
    hide Next, Enabled, Inv, Budget, TaskEvolves, Contiguous;
    if n > 0 {
      ChangesWithinBudget(states, events, id, n - 1);
      RunEvolves(states, events, n - 1, n);
      var a, e := states[n - 1], events[n - 1];
      assert StepAt(states, events, n - 1);
      if id in a.runs && id in states[n].runs {
        StepSpendsBudget(a, e, id);
      } else if id in states[n].runs {
        NewTaskIsPending(a, e, id);
      }
    }
  }

  /** New tasks come from the two INSERT statements, pending and with no attempts. */
  lemma NewTaskIsPending(db: Db, e: Event, id: RunId)
    requires Inv(db) && Enabled(db, e) && id !in db.runs && id in Next(db, e).runs
    ensures e.action.Enqueue? || e.action.Materialize?
    ensures var r := Next(db, e).runs[id];
      r == Newborn(r.spec, r.spec.scheduledFor) && 0 <= Budget(r) == 2 * r.spec.maxAttempts
  {
    hide Contiguous, TasksOk, TokensDistinct, RunsUnique, Accounted, Perform, DedupTaken, OccurrenceTaken;
    if e.action.Materialize? {
      assert JobCheck(db.jobs[e.action.job]);
    } else if !e.action.Enqueue? {
      OthersInsertNothing(db, e);
    }
  }

  lemma OthersInsertNothing(db: Db, e: Event)
    requires !e.action.Enqueue? && !e.action.Materialize?
    ensures Next(db, e).runs.Keys <= db.runs.Keys
  {
    hide Perform, Moves, NameTaken;
    PerformKeepsIds(db, Moves(db, e), e.now);
  }

  lemma PerformKeepsIds(db: Db, moves: map<RunId, Move>, now: Time)
    ensures Perform(db, moves, now).runs.Keys == db.runs.Keys
  {
  }

  /** A task makes at most 2 * max_attempts state transitions in any run. */
  lemma {:induction false} BoundedTransitions(states: seq<Db>, events: seq<Event>, id: RunId, i: nat, n: nat)
    requires IsRun(states, events) && i <= n < |states| && id in states[i].runs
    ensures Changes(states, id, n) <= 2 * states[i].runs[id].spec.maxAttempts
    decreases n
  {
    hide Next, Enabled, Inv, TaskEvolves, Contiguous;
    RunEvolves(states, events, i, n);
    if id in states[n].runs {
      ChangesWithinBudget(states, events, id, n);
      SpecIsImmutable(states, events, i, n, id);
    } else {
      BoundedTransitions(states, events, id, i, n - 1);
    }
  }

  // ---------------------------------------------------------------------------
  // Attempts in time
  // ---------------------------------------------------------------------------

  lemma {:induction false} LogIsOrdered(log: seq<Attempt>, retryBackoff: int, clock: Time, i: nat, j: nat)
    requires LogOk(log, retryBackoff, clock) && retryBackoff >= 0 && i < j < |log|
    ensures Retriable(log[i]) && ResumeAt(log[i], retryBackoff) <= log[j].startedAt
    decreases j
  {
    assert Succeeds(log[j - 1], log[j], retryBackoff);
    if i < j - 1 {
      LogIsOrdered(log, retryBackoff, clock, i, j - 1);
      assert AttemptCheck(log[j - 1]) && AttemptTimes(log[j - 1], clock);
    }
  }

  /**
   `b` starts no earlier than `a` ended: not before the failure plus the backoff, or
   not before the lease deadline after an expiry.
   */
  predicate Disjoint(a: Attempt, b: Attempt, retryBackoff: int) {
    && a.finishedAt.Some?
    && a.startedAt <= a.finishedAt.value <= b.startedAt
    && (a.outcome == Some(AttemptOutcome.Failed) || a.outcome == Some(AttemptOutcome.Expired))
    && (a.outcome == Some(AttemptOutcome.Failed) ==> a.finishedAt.value + retryBackoff <= b.startedAt)
    && (a.outcome == Some(AttemptOutcome.Expired) ==> a.leaseExpiresAt <= b.startedAt)
  }

  /** Attempts of one task are ordered and disjoint in database time. */
  lemma AttemptsDisjoint(states: seq<Db>, events: seq<Event>, n: nat, id: RunId, i: nat, j: nat)
    requires IsRun(states, events) && n < |states| && id in states[n].runs
    requires 1 <= i < j <= states[n].runs[id].attemptCount
    ensures Key(id, i) in states[n].attempts && Key(id, j) in states[n].attempts
    ensures Disjoint(states[n].attempts[Key(id, i)], states[n].attempts[Key(id, j)],
                     states[n].runs[id].spec.retryBackoff)
  {
    RunInv(states, events, n);
    AttemptsDisjointIn(states[n], id, i, j);
  }

  lemma LogIsDisjoint(t: Task, clock: Time, i: nat, j: nat)
    requires TaskOk(t, clock) && i < j < |t.log|
    ensures Disjoint(t.log[i], t.log[j], t.run.spec.retryBackoff)
  {
    LogIsOrdered(t.log, t.run.spec.retryBackoff, clock, i, j);
    assert AttemptCheck(t.log[i]) && AttemptTimes(t.log[i], clock);
  }

  lemma AttemptsDisjointIn(db: Db, id: RunId, i: nat, j: nat)
    requires Contiguous(db) && TasksOk(db) && id in db.runs
    requires 1 <= i < j <= db.runs[id].attemptCount
    ensures Key(id, i) in db.attempts && Key(id, j) in db.attempts
    ensures Disjoint(db.attempts[Key(id, i)], db.attempts[Key(id, j)], db.runs[id].spec.retryBackoff)
  {
    hide TaskOk, Disjoint, TasksOk;
    var t := View(db, id);
    TaskAt(db, id);
    assert Key(id, i) in db.attempts && Key(id, j) in db.attempts;
    AttemptIsLogEntry(db, Key(id, i));
    AttemptIsLogEntry(db, Key(id, j));
    LogIsDisjoint(t, db.clock, i - 1, j - 1);
  }

  // ---------------------------------------------------------------------------
  // Who may act on a running task
  // ---------------------------------------------------------------------------

  /** At any instant a running row is acceptable to its holder or recoverable, never both. */
  lemma LiveOrOverdue(states: seq<Db>, events: seq<Event>, i: nat, id: RunId, now: Time)
    requires IsRun(states, events) && i < |states| && id in states[i].runs
    requires states[i].runs[id].state == RunState.Running
    ensures states[i].runs[id].leaseToken.Some?
    ensures Live(states[i].runs[id], states[i].runs[id].leaseToken.value, now)
            <==> !Overdue(states[i].runs[id], now)
  {
    RunInv(states, events, i);
    assert TaskOk(View(states[i], id), states[i].clock);
  }

  /** The holder's own report of the end of its attempt, or a cancellation. */
  predicate TakesAway(a: Action, id: RunId, token: Token) {
    || (a.Finalize? && a.id == id && a.token == token)
    || (a.Fail? && a.id == id && a.token == token)
    || (a.Cancel? && a.id == id)
  }

  /** Only its holder's own report or a cancellation takes an unexpired lease away. */
  lemma LeaseIsExclusive(db: Db, e: Event, id: RunId, token: Token)
    requires Inv(db) && Enabled(db, e) && LiveIn(db, id, token, e.now)
    requires !TakesAway(e.action, id, token)
    ensures LiveIn(Next(db, e), id, token, e.now)
    ensures Next(db, e).runs[id].leaseExpiresAt.value ==
            if e.action.Renew? && e.action.id == id && e.action.token == token
            then e.now + db.runs[id].spec.leaseDuration
            else db.runs[id].leaseExpiresAt.value
    ensures Next(db, e).runs[id].spec == db.runs[id].spec
  {
    hide Enabled, Next, Contiguous, TasksOk, TokensDistinct, RunsUnique, JobsOk, Accounted, LogOk, Agrees;
    if id !in Next(db, e).runs {
      OnlyPruneRemoves(db, e, id);
    }
    StepRefinesMove(db, e, id);
    TaskAt(db, id);
    LiveMove(db, e, id, token);
  }

  /** What a step may do to a task whose lease is live. */
  lemma LiveMove(db: Db, e: Event, id: RunId, token: Token)
    requires Enabled(db, e) && LiveIn(db, id, token, e.now)
    requires !TakesAway(e.action, id, token)
    ensures MoveOf(Moves(db, e), id) ==
      if e.action.Renew? && e.action.id == id && e.action.token == token then Extend(token) else Stay
  {
  }

  /** The instant of the latest renewal of the lease before event `n`, or `start`. */
  function LastBeat(events: seq<Event>, i: nat, n: nat, id: RunId, token: Token, start: Time): Time
    requires i <= n <= |events|
    decreases n
  {
    if n == i then start
    else if events[n - 1].action == Renew(id, token) then events[n - 1].now
    else LastBeat(events, i, n - 1, id, token, start)
  }

  /** Nobody ends the task, and every event comes within a lease of the last renewal. */
  ghost predicate Tended(events: seq<Event>, i: nat, k: nat, id: RunId, token: Token, start: Time, lease: int)
    requires i <= k <= |events|
  {
    forall n :: i <= n < k ==>
      && events[n].now < LastBeat(events, i, n, id, token, start) + lease
      && !TakesAway(events[n].action, id, token)
  }

  /**
   A lease renewed at gaps shorter than its duration is never lost, whatever all other
   actors do, and every one of its renewals succeeds.
   */
  lemma {:induction false} TendedLeaseIsKept(states: seq<Db>, events: seq<Event>, i: nat, k: nat,
                                             id: RunId, token: Token, start: Time)
    requires IsRun(states, events) && i <= k < |states| && Holds(states[i], id, token)
    requires states[i].runs[id].leaseExpiresAt == Some(start + states[i].runs[id].spec.leaseDuration)
    requires Tended(events, i, k, id, token, start, states[i].runs[id].spec.leaseDuration)
    ensures Holds(states[k], id, token) && states[k].runs[id].spec == states[i].runs[id].spec
    ensures states[k].runs[id].leaseExpiresAt ==
      Some(LastBeat(events, i, k, id, token, start) + states[i].runs[id].spec.leaseDuration)
    decreases k
  {
    hide Inv, Next, Enabled;
    if i < k {
      TendedLeaseIsKept(states, events, i, k - 1, id, token, start);
      RunInv(states, events, k - 1);
      assert StepAt(states, events, k - 1);
      LeaseIsExclusive(states[k - 1], events[k - 1], id, token);
    }
  }

  // ---------------------------------------------------------------------------
  // Conservation
  // ---------------------------------------------------------------------------

  /** Tasks ever created are the tasks present and the tasks pruned. */
  lemma TasksConserved(states: seq<Db>, events: seq<Event>, i: nat)
    requires IsRun(states, events) && i < |states|
    ensures |states[i].created| == |states[i].runs| + |states[i].pruned|
  {
    RunInv(states, events, i);
    assert |states[i].runs.Keys + states[i].pruned| == |states[i].runs.Keys| + |states[i].pruned|;
  }

  // ---------------------------------------------------------------------------
  // Deduplication
  // ---------------------------------------------------------------------------

  /** What `enqueue` returns: the new id, or the one that has the deduplication key. */
  predicate ReturnsId(db: Db, e: Event, id: RunId)
    requires e.action.Enqueue?
  {
    && id in Next(db, e).runs
    && if e.action.spec.dedupKey.None? then id == e.action.newId
       else SameDedup(Newborn(e.action.spec, 0), Next(db, e).runs[id])
  }

  /**
   A deduplication key stays with its task, terminal or not, until retention deletes it:
   of two enqueues with the same key in a run, the later returns the id of the earlier,
   and changes nothing, exactly if that task has not been pruned in between.
   */
  lemma KeyStaysWithTask(states: seq<Db>, events: seq<Event>, i: nat, j: nat, x: RunId, y: RunId)
    requires IsRun(states, events) && i < j < |events|
    requires events[i].action.Enqueue? && events[j].action.Enqueue?
    requires events[i].action.spec.dedupKey.Some?
    requires events[j].action.spec.dedupKey == events[i].action.spec.dedupKey
    requires events[j].action.spec.jobName == events[i].action.spec.jobName
    requires ReturnsId(states[i], events[i], x) && ReturnsId(states[j], events[j], y)
    ensures x == y <==> x in states[j].runs
    ensures x !in states[j].runs <==> x in states[j].pruned
    ensures x in states[j].runs ==> states[j + 1] == Advance(states[j], events[j].now)
  {
    hide Next, Enabled, TaskEvolves, Contiguous, TasksOk, TokensDistinct, JobsOk;
    assert StepAt(states, events, i) && StepAt(states, events, j);
    RunEvolves(states, events, i + 1, j);
    if x in states[j].runs {
      SpecIsImmutable(states, events, i + 1, j, x);
      KeyIsTaken(states[j], events[j], x);
    } else {
      PrunedIsForever(states, events, j, j + 1, x) by { hide Inv; }
    }
  }

  lemma KeyIsTaken(db: Db, e: Event, holder: RunId)
    requires RunsUnique(db) && e.action.Enqueue? && holder in db.runs
    requires SameDedup(Newborn(e.action.spec, 0), db.runs[holder])
    ensures Next(db, e) == Advance(db, e.now)
    ensures forall id :: ReturnsId(db, e, id) <==> id == holder
  {
    assert SameDedup(Newborn(EnqueuedSpec(e.action.spec, e.action.at, e.txNow), 0), db.runs[holder]);
    assert forall id :: id in db.runs && SameDedup(Newborn(e.action.spec, 0), db.runs[id]) ==>
        SameDedup(db.runs[id], db.runs[holder]);
  }
}
