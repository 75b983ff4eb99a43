/** The read side: projecting stored rows to the public state types. */
module Inspect {
  import opened Rows
  import opened Lease
  import opened Tables
  import opened Protocol
  import opened Runs

  datatype PublicState =
    | PendingState
    | RunningState(workerId: string, leaseToken: Token, leaseExpiresAt: Time, startedAt: Time)
    | CompletedState(finishedAt: Time)
    | FailedState(finishedAt: Time, error: string)
    | CancelledState(finishedAt: Time)

  function StateOf(r: Run): Result<PublicState> {
    match r.state
    case Pending => Ok(PendingState)
    case Running =>
      if r.workerId.None? then Err(Invariant("running task without worker"))
      else if r.leaseToken.None? then Err(Invariant("running task without token"))
      else if r.leaseExpiresAt.None? then Err(Invariant("running task without expiry"))
      else if r.startedAt.None? then Err(Invariant("running task without start"))
      else Ok(RunningState(r.workerId.value, r.leaseToken.value, r.leaseExpiresAt.value, r.startedAt.value))
    case Completed =>
      if r.finishedAt.None? then Err(Invariant("completed task without finish"))
      else Ok(CompletedState(r.finishedAt.value))
    case Failed =>
      if r.finishedAt.None? then Err(Invariant("failed task without finish"))
      else if r.lastError.None? then Err(Invariant("failed task without error"))
      else Ok(FailedState(r.finishedAt.value, r.lastError.value))
    case Cancelled =>
      if r.finishedAt.None? then Err(Invariant("cancelled task without finish"))
      else Ok(CancelledState(r.finishedAt.value))
  }

  /** What the last attempt says about the state of its task, without looking at the row. */
  predicate Explains(last: Option<Attempt>, s: PublicState) {
    match s
    case PendingState => last.None? || Retriable(last.value)
    case RunningState(w, t, exp, start) =>
      last.Some? && last.value.outcome.None? && last.value.workerId == w && last.value.leaseToken == t
      && last.value.leaseExpiresAt == exp && last.value.startedAt == start
    case CompletedState(end) =>
      last.Some? && last.value.outcome == Some(AttemptOutcome.Completed) && last.value.finishedAt == Some(end)
    case FailedState(end, error) =>
      last.Some? && last.value.finishedAt == Some(end)
      && (|| (last.value.outcome == Some(AttemptOutcome.Failed) && last.value.error == Some(error))
          || (last.value.outcome == Some(AttemptOutcome.Expired) && error == ATTEMPTS_EXHAUSTED))
    case CancelledState(end) =>
      last.None? || Retriable(last.value)
      || (last.value.outcome == Some(AttemptOutcome.Cancelled) && last.value.finishedAt == Some(end))
  }

  function LastAttempt(db: Db, id: RunId): Option<Attempt>
    requires id in db.runs
  {
    var k := Key(id, db.runs[id].attemptCount);
    if k in db.attempts then Some(db.attempts[k]) else None
  }

  /**
   On every reachable row `state_of` succeeds, its answer is the one the attempt log
   tells, and every attempt but the last ended in failure or expiry.
   */
  lemma RowAgreesWithLog(states: seq<Db>, events: seq<Event>, i: nat, id: RunId)
    requires IsRun(states, events) && i < |states| && id in states[i].runs
    ensures StateOf(states[i].runs[id]).Ok?
    ensures Explains(LastAttempt(states[i], id), StateOf(states[i].runs[id]).value)
    ensures forall n :: 1 <= n < states[i].runs[id].attemptCount ==>
      Key(id, n) in states[i].attempts && Retriable(states[i].attempts[Key(id, n)])
  {
    RunInv(states, events, i);
    RowAgreesIn(states[i], id);
  }

  lemma LogExplainsRow(t: Task, clock: Time)
    requires TaskOk(t, clock)
    ensures StateOf(t.run).Ok?
    ensures Explains(if t.log == [] then None else Some(Last(t)), StateOf(t.run).value)
  {
  }

  lemma RowAgreesIn(db: Db, id: RunId)
    requires Contiguous(db) && TasksOk(db) && id in db.runs
    ensures StateOf(db.runs[id]).Ok?
    ensures Explains(LastAttempt(db, id), StateOf(db.runs[id]).value)
    ensures forall n :: 1 <= n < db.runs[id].attemptCount ==>
      Key(id, n) in db.attempts && Retriable(db.attempts[Key(id, n)])
  {
    hide TasksOk, StateOf, Explains, Agrees, Retriable;
    var t := View(db, id);
    TaskAt(db, id);
    LogExplainsRow(t, db.clock);
    var last := Key(id, db.runs[id].attemptCount);
    assert last in db.attempts <==> db.runs[id].attemptCount >= 1;
    if last in db.attempts {
      AttemptIsLogEntry(db, last);
    }
    forall n | 1 <= n < t.run.attemptCount
      ensures Key(id, n) in db.attempts && Retriable(db.attempts[Key(id, n)])
    {
      assert Key(id, n) in db.attempts;
      AttemptIsLogEntry(db, Key(id, n));
      assert Succeeds(t.log[n - 1], t.log[n], t.run.spec.retryBackoff);
    }
  }

  /**
   In every reachable state the last attempt alone tells a reader whether the task runs,
   completed, or was cancelled while running; a failed task carries the error of its
   last attempt, or the exhaustion text if that expired.
   */
  lemma LogDecidesState(states: seq<Db>, events: seq<Event>, i: nat, id: RunId)
    requires IsRun(states, events) && i < |states| && id in states[i].runs
    ensures StateOf(states[i].runs[id]).Ok?
    ensures var last, s := LastAttempt(states[i], id), StateOf(states[i].runs[id]).value;
      && (s.RunningState? <==> last.Some? && last.value.outcome.None?)
      && (s.CompletedState? <==> last.Some? && last.value.outcome == Some(AttemptOutcome.Completed))
      && (last.Some? && last.value.outcome == Some(AttemptOutcome.Cancelled) ==> s.CancelledState?)
      && (s.FailedState? ==>
            && last.Some? && Retriable(last.value) && last.value.finishedAt == Some(s.finishedAt)
            && Some(s.error) == if last.value.outcome == Some(AttemptOutcome.Failed) then last.value.error
                                else Some(ATTEMPTS_EXHAUSTED))
  {
    hide StateOf, IsRun;
    RowAgreesWithLog(states, events, i, id);
  }

  // ---------------------------------------------------------------------------
  // The answer of the winner is what readers see
  // ---------------------------------------------------------------------------

  /** What the transaction that ended a task reported about it. */
  function Verdict(e: Event): PublicState
    requires e.action.Finalize? || e.action.Fail? || e.action.Recover? || e.action.Cancel?
  {
    match e.action
    case Finalize(_, _, Succeeded) => CompletedState(e.now)
    case Finalize(_, _, Errored(error)) => FailedState(e.now, error)
    case Fail(_, _, error, _) => FailedState(e.now, error)
    case Recover(_, _) => FailedState(e.now, ATTEMPTS_EXHAUSTED)
    case Cancel(_, _) => CancelledState(e.now)
  }

  /**
   Whoever ends a task decides what every later reader sees of it, whatever stale
   workers, recoveries and cancellations come afterwards, until it is pruned.
   */
  lemma WinnerDecides(states: seq<Db>, events: seq<Event>, i: nat, j: nat, id: RunId)
    requires IsRun(states, events) && i < |events| && i < j < |states|
    requires Wins(states[i], events[i], id) && id in states[j].runs
    ensures StateOf(states[j].runs[id]) == Ok(Verdict(events[i]))
  {
    hide Inv, Next, Enabled, Wins;
    assert StepAt(states, events, i);
    RunInv(states, events, i);
    WinsIffEnds(states[i], events[i], id);
    TerminalIsForever(states, events, i + 1, j, id);
    StepRefinesMove(states[i], events[i], id);
    WinnerWrites(states[i], events[i], id);
  }

  lemma WinnerWrites(db: Db, e: Event, id: RunId)
    requires Enabled(db, e) && id in db.runs && Wins(db, e, id)
    ensures StateOf(RowAfter(db.runs[id], MoveOf(Moves(db, e), id), e.now)) == Ok(Verdict(e))
  {
  }
}
