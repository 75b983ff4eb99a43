/**
 The SQL statements as functions on tables, and the proof that each transaction's
 statements together make the moves of its `Protocol` step.
 */
module Statements {
  import opened Rows
  import opened Lease
  import opened Tables
  import opened Protocol
  import opened Runs
  import opened ReadCommitted
  import opened Ordering
  import Durations

  datatype FinalizeOutcome = Applied | Fenced | AlreadyTerminal
  datatype FailureOutcome = Retried(availableAt: Time) | Failed | Fenced | AlreadyTerminal
  datatype RenewalOutcome = Renewed(leaseExpiresAt: Time) | Fenced
  datatype RecoverySummary = RecoverySummary(requeued: nat, failed: nat)
  datatype Tick = Processed | Idle

  /** A row CLAIM_BATCH returns, and the claim a worker gets for it. */
  datatype ClaimedRow = ClaimedRow(
    runId: RunId,
    spec: Spec,
    attempt: int,
    leaseToken: Token,
    leaseExpiresAt: Time,
    leaseDuration: Durations.PgInterval)

  datatype ClaimedRun = ClaimedRun(
    runId: RunId,
    spec: Spec,
    attempt: int,
    leaseToken: Token,
    leaseExpiresAt: Time,
    leaseDuration: Durations.LeaseDuration)

  // ---------------------------------------------------------------------------
  // Statements on the attempts table
  // ---------------------------------------------------------------------------

  function CloseAttempts(attempts: map<Key, Attempt>, hit: set<Key>, now: Time,
                         outcome: AttemptOutcome, error: Option<string>): map<Key, Attempt> {
    map k | k in attempts :: if k in hit then Closed(attempts[k], now, outcome, error) else attempts[k]
  }

  function ExtendAttempts(attempts: map<Key, Attempt>, hit: set<Key>, until: Time): map<Key, Attempt> {
    map k | k in attempts :: if k in hit then attempts[k].(leaseExpiresAt := until) else attempts[k]
  }

  function ChangedKeys(before: map<Key, Attempt>, after: map<Key, Attempt>): set<Key> {
    set k | k in before && (k !in after || after[k] != before[k])
  }

  /** Row by row: the open attempts with the token are closed, all others equal. */
  ghost predicate ClosedFor(before: map<Key, Attempt>, after: map<Key, Attempt>, token: Token, now: Time,
                            outcome: AttemptOutcome, error: Option<string>) {
    && after.Keys == before.Keys
    && forall k :: k in before && k in after ==>
         after[k] == if OpenWith(before[k], token) then Closed(before[k], now, outcome, error) else before[k]
  }

  lemma CloseExactly(before: map<Key, Attempt>, after: map<Key, Attempt>, token: Token, now: Time,
                     outcome: AttemptOutcome, error: Option<string>)
    ensures ClosedFor(before, after, token, now, outcome, error) <==>
      after == CloseAttempts(before, OpenFor(before, token), now, outcome, error)
    ensures ClosedFor(before, after, token, now, outcome, error) ==>
      OpenFor(after, token) == {} && ChangedKeys(before, after) == OpenFor(before, token)
  {
    if ClosedFor(before, after, token, now, outcome, error) {
      assert after == CloseAttempts(before, OpenFor(before, token), now, outcome, error);
    }
  }

  /** Row by row: the open attempts with the token run until `until`, all others equal. */
  ghost predicate ExtendedFor(before: map<Key, Attempt>, after: map<Key, Attempt>, token: Token, until: Time) {
    && after.Keys == before.Keys
    && forall k :: k in before && k in after ==>
         after[k] == if OpenWith(before[k], token) then before[k].(leaseExpiresAt := until) else before[k]
  }

  lemma ExtendExactly(before: map<Key, Attempt>, after: map<Key, Attempt>, token: Token, until: Time)
    ensures ExtendedFor(before, after, token, until) <==>
      after == ExtendAttempts(before, OpenFor(before, token), until)
    ensures ExtendedFor(before, after, token, until) ==> OpenFor(after, token) == OpenFor(before, token)
  {
    if ExtendedFor(before, after, token, until) {
      assert after == ExtendAttempts(before, OpenFor(before, token), until);
    }
  }

  // ---------------------------------------------------------------------------
  // The answers of the worker-facing calls
  // ---------------------------------------------------------------------------

  /** The match at the head of `finalize_run`. */
  function AttemptOutcomeOf(outcome: Outcome): AttemptOutcome {
    if outcome.Succeeded? then AttemptOutcome.Completed else AttemptOutcome.Failed
  }

  function ErrorOf(outcome: Outcome): Option<string> {
    if outcome.Succeeded? then None else Some(outcome.error)
  }

  predicate TerminalIn(db: Db, id: RunId) {
    id in db.runs && Terminal(db.runs[id])
  }

  /** The UPDATE at `db`, then, if it found nothing, IS_TERMINAL at `seen`. */
  function FinalizeAnswer(db: Db, seen: Db, id: RunId, token: Token, now: Time): FinalizeOutcome {
    if LiveIn(db, id, token, now) then FinalizeOutcome.Applied
    else if TerminalIn(seen, id) then FinalizeOutcome.AlreadyTerminal
    else FinalizeOutcome.Fenced
  }

  function FailAnswer(db: Db, seen: Db, id: RunId, token: Token, retryable: bool, now: Time): FailureOutcome {
    if LiveIn(db, id, token, now) then
      if retryable && AttemptsRemain(db.runs[id]) then Retried(now + db.runs[id].spec.retryBackoff)
      else FailureOutcome.Failed
    else if TerminalIn(seen, id) then FailureOutcome.AlreadyTerminal
    else FailureOutcome.Fenced
  }

  function RenewAnswer(db: Db, id: RunId, token: Token, now: Time): RenewalOutcome {
    if LiveIn(db, id, token, now) then Renewed(now + db.runs[id].spec.leaseDuration) else RenewalOutcome.Fenced
  }

  /**
   What `finalize_run` answers is what its step did: `Applied` exactly if the step ended
   the task, and otherwise only the clock has moved.
   */
  lemma FinalizeAnswerIff(states: seq<Db>, events: seq<Event>, i: nat, seen: Db, id: RunId, token: Token,
                          outcome: Outcome)
    requires IsRun(states, events) && i < |events| && events[i].action == Finalize(id, token, outcome)
    ensures var answer := FinalizeAnswer(states[i], seen, id, token, events[i].now);
      var still := states[i + 1] == states[i].(clock := events[i].now);
      && (answer == FinalizeOutcome.Applied <==> Ends(states[i], events[i], id))
      && (answer == FinalizeOutcome.Applied <==> !still)
      && (answer == FinalizeOutcome.Fenced <==> still && !TerminalIn(seen, id))
      && (answer == FinalizeOutcome.AlreadyTerminal <==> still && TerminalIn(seen, id))
  {
    hide Inv, Next, Enabled;
    assert StepAt(states, events, i);
    RunInv(states, events, i);
    WinsIffEnds(states[i], events[i], id);
    if !LiveIn(states[i], id, token, events[i].now) {
      RefusedOnly(states[i], events[i], id, token);
    }
  }

  lemma RefusedOnly(db: Db, e: Event, id: RunId, token: Token)
    requires Enabled(db, e) && WorkerCall(e.action, id, token) && !LiveIn(db, id, token, e.now)
    ensures Next(db, e) == db.(clock := e.now)
  {
    hide Inv;
    RefusedStep(db, e, id, token);
  }

  /**
   What `fail_run` answers is what its step did: `Failed` exactly if it ended the task,
   `Retried(t)` exactly if it requeued it for `t`, and otherwise only the clock has moved.
   */
  lemma FailAnswerIff(states: seq<Db>, events: seq<Event>, i: nat, seen: Db, id: RunId, token: Token,
                      error: string, retryable: bool)
    requires IsRun(states, events) && i < |events| && events[i].action == Fail(id, token, error, retryable)
    ensures var answer := FailAnswer(states[i], seen, id, token, retryable, events[i].now);
      var still := states[i + 1] == states[i].(clock := events[i].now);
      && (answer == FailureOutcome.Failed <==> Ends(states[i], events[i], id))
      && (forall t :: answer == Retried(t) <==>
            && Requeues(states[i], events[i], id)
            && id in states[i + 1].runs && states[i + 1].runs[id].availableAt == t)
      && (answer == FailureOutcome.Fenced <==> still && !TerminalIn(seen, id))
      && (answer == FailureOutcome.AlreadyTerminal <==> still && TerminalIn(seen, id))
  {
    hide Inv, Next, Enabled, RowAfter;
    assert StepAt(states, events, i);
    RunInv(states, events, i);
    WinsIffEnds(states[i], events[i], id);
    if LiveIn(states[i], id, token, events[i].now) {
      FaultRow(states[i], events[i], id);
      FaultState(states[i].runs[id], token, error, retryable, events[i].now);
    } else {
      RefusedOnly(states[i], events[i], id, token);
    }
  }

  lemma FaultRow(db: Db, e: Event, id: RunId)
    requires Inv(db) && Enabled(db, e) && e.action.Fail? && e.action.id == id
    requires LiveIn(db, id, e.action.token, e.now)
    ensures id in Next(db, e).runs
    ensures Next(db, e).runs[id] ==
      RowAfter(db.runs[id], Fault(e.action.token, e.action.error, e.action.retryable), e.now)
  {
    hide Inv, RowAfter;
  }

  /** Over all callers and all time at most one call is told that it ended the task. */
  lemma OneReportedEnd(states: seq<Db>, events: seq<Event>, i: nat, j: nat, id: RunId, seen: Db, later: Db,
                       t1: Token, t2: Token, outcome: Outcome, error: string, retryable: bool)
    requires IsRun(states, events) && i < |events| && j < |events|
    requires events[i].action == Finalize(id, t1, outcome)
    requires FinalizeAnswer(states[i], seen, id, t1, events[i].now) == FinalizeOutcome.Applied
    requires
      || (events[j].action.Finalize? && events[j].action.id == id && events[j].action.token == t2
          && FinalizeAnswer(states[j], later, id, t2, events[j].now) == FinalizeOutcome.Applied)
      || (events[j].action == Fail(id, t2, error, retryable)
          && FailAnswer(states[j], later, id, t2, retryable, events[j].now) == FailureOutcome.Failed)
    ensures i == j
  {
    hide Inv, Next, Enabled;
    if i <= j {
      AtMostOneWinner(states, events, i, j, id);
    } else {
      AtMostOneWinner(states, events, j, i, id);
    }
  }

  /**
   What `renew_lease` answers is what the tables hold: a renewed deadline is that of the
   running row and of its open attempt; `Fenced` means that only the clock has moved.
   */
  lemma RenewAnswerIff(db: Db, e: Event, id: RunId, token: Token, deadline: Time)
    requires Inv(db) && Enabled(db, e) && e.action == Renew(id, token)
    ensures RenewAnswer(db, id, token, e.now) == Renewed(deadline) <==>
      && LiveIn(db, id, token, e.now)
      && Holds(Next(db, e), id, token) && Next(db, e).runs[id].leaseExpiresAt == Some(deadline)
    ensures RenewAnswer(db, id, token, e.now) == Renewed(deadline) ==>
      var last := Key(id, Next(db, e).runs[id].attemptCount);
      && deadline == e.now + db.runs[id].spec.leaseDuration
      && last in Next(db, e).attempts && Next(db, e).attempts[last].outcome.None?
      && Next(db, e).attempts[last].leaseExpiresAt == deadline
    ensures RenewAnswer(db, id, token, e.now) == RenewalOutcome.Fenced <==> !LiveIn(db, id, token, e.now)
    ensures RenewAnswer(db, id, token, e.now) == RenewalOutcome.Fenced ==> Next(db, e) == db.(clock := e.now)
    ensures Next(db, e) == db.(clock := e.now) ==>
      || RenewAnswer(db, id, token, e.now) == RenewalOutcome.Fenced
      || RenewAnswer(db, id, token, e.now) == Renewed(db.runs[id].leaseExpiresAt.value)
  {
    hide Inv, Next, Enabled;
    if LiveIn(db, id, token, e.now) {
      LeaseIsExclusive(db, e, id, token);
      StepKeeps(db, e);
      LastIsOpen(Next(db, e), id);
    } else {
      RefusedOnly(db, e, id, token);
    }
  }

  lemma LastIsOpen(db: Db, id: RunId)
    requires Inv(db) && id in db.runs && db.runs[id].state == RunState.Running
    ensures var last := Key(id, db.runs[id].attemptCount);
      && last in db.attempts && db.attempts[last].outcome.None?
      && db.runs[id].leaseExpiresAt == Some(db.attempts[last].leaseExpiresAt)
  {
    RunningHasOpenAttempt(db, id);
  }

  /**
   `AlreadyTerminal`, read at any state from the refused call on, means that another
   transaction ended the task for good: the one winner, which is not this call.
   */
  lemma AlreadyTerminalIsExact(states: seq<Db>, events: seq<Event>, i: nat, j: nat, id: RunId, token: Token)
    returns (winner: nat)
    requires IsRun(states, events) && i < |events| && i <= j < |states| && WorkerCall(events[i].action, id, token)
    requires FinalizeAnswer(states[i], states[j], id, token, events[i].now) == FinalizeOutcome.AlreadyTerminal
    ensures winner < j && winner != i && Wins(states[winner], events[winner], id)
    ensures forall n :: j <= n < |states| && id in states[n].runs ==> states[n].runs[id] == states[j].runs[id]
  {
    hide Inv, Next, Enabled, IsRun;
    winner := TerminalHasWinner(states, events, j, id);
    forall n | j <= n < |states| && id in states[n].runs
      ensures states[n].runs[id] == states[j].runs[id]
    {
      TerminalIsForever(states, events, j, n, id);
    }
  }

  /** `Fenced` means that the task had not ended when IS_TERMINAL read it, or was gone. */
  lemma FencedIsExact(states: seq<Db>, events: seq<Event>, i: nat, j: nat, id: RunId, token: Token)
    requires IsRun(states, events) && i < j < |states| && WorkerCall(events[i].action, id, token)
    requires token in states[i].issued
    requires FinalizeAnswer(states[i], states[j], id, token, events[i].now) == FinalizeOutcome.Fenced
    ensures !TerminalIn(states[j], id)
    ensures forall n, now :: j <= n < |states| && states[n].clock <= now ==> !LiveIn(states[n], id, token, now)
  {
    hide Inv, Next;
    assert StepAt(states, events, i);
    assert states[i + 1] == Advance(states[i], events[i].now) by {
      RefusedStep(states[i], events[i], id, token);
    }
    hide Enabled, IsRun;
    forall n, now | j <= n < |states| && states[n].clock <= now
      ensures !LiveIn(states[n], id, token, now)
    {
      DeadTokenStaysDead(states, events, i + 1, n, id, token, now);
    }
  }

  // ---------------------------------------------------------------------------
  // A lease move as the two statements of its transaction
  // ---------------------------------------------------------------------------

  /** One move on a running task touches its row and its last attempt, nothing else. */
  lemma PerformOne(db: Db, id: RunId, m: Move, now: Time)
    requires Contiguous(db) && id in db.runs && !m.Start?
    requires db.runs[id].state == RunState.Running && Key(id, db.runs[id].attemptCount) in db.attempts
    ensures var last := Key(id, db.runs[id].attemptCount);
      Perform(db, map[id := m], now) ==
      db.(runs := db.runs[id := RowAfter(db.runs[id], m, now)],
          attempts := db.attempts[last := AttemptAfter(db.attempts[last], db.runs[id], m, now)],
          clock := now)
  {
    var moves := map[id := m];
    var b := Perform(db, moves, now);
    var last := Key(id, db.runs[id].attemptCount);
    assert NewKeys(db, moves) == {} && NewTokens(db, moves) == {};
    assert b.runs == db.runs[id := RowAfter(db.runs[id], m, now)];
    assert forall k :: Current(db, moves, k) <==> k == last;
    assert b.attempts == db.attempts[last := AttemptAfter(db.attempts[last], db.runs[id], m, now)];
  }

  lemma CloseOne(attempts: map<Key, Attempt>, k: Key, now: Time, outcome: AttemptOutcome, error: Option<string>)
    requires k in attempts
    ensures CloseAttempts(attempts, {k}, now, outcome, error) == attempts[k := Closed(attempts[k], now, outcome, error)]
  {
  }

  lemma ExtendOne(attempts: map<Key, Attempt>, k: Key, until: Time)
    requires k in attempts
    ensures ExtendAttempts(attempts, {k}, until) == attempts[k := attempts[k].(leaseExpiresAt := until)]
  {
  }

  /** The token-wide UPDATE of attempts agrees with the move on the one task. */
  lemma RecordIsLocal(db: Db, id: RunId, token: Token, m: Move, outcome: AttemptOutcome,
                      error: Option<string>, now: Time)
    requires Inv(db) && id in db.runs && db.runs[id].state == RunState.Running
    requires db.runs[id].leaseToken == Some(token) && !m.Start?
    requires forall a: Attempt :: AttemptAfter(a, db.runs[id], m, now) == Closed(a, now, outcome, error)
    ensures |OpenFor(db.attempts, token)| == 1
    ensures Perform(db, map[id := m], now) ==
      db.(runs := db.runs[id := RowAfter(db.runs[id], m, now)],
          attempts := CloseAttempts(db.attempts, OpenFor(db.attempts, token), now, outcome, error),
          clock := now)
  {
    hide Contiguous, TasksOk, TokensDistinct, RunsUnique, JobsOk, Accounted, Perform, RowAfter, CloseAttempts;
    TokenFindsOneAttempt(db, id, token);
    RunningHasOpenAttempt(db, id);
    PerformOne(db, id, m, now);
    CloseOne(db.attempts, Key(id, db.runs[id].attemptCount), now, outcome, error);
  }

  lemma RenewIsLocal(db: Db, id: RunId, token: Token, now: Time)
    requires Inv(db) && id in db.runs && db.runs[id].state == RunState.Running
    requires db.runs[id].leaseToken == Some(token)
    ensures |OpenFor(db.attempts, token)| == 1
    ensures Perform(db, map[id := Extend(token)], now) ==
      db.(runs := db.runs[id := RowAfter(db.runs[id], Extend(token), now)],
          attempts := ExtendAttempts(db.attempts, OpenFor(db.attempts, token),
                                     now + db.runs[id].spec.leaseDuration),
          clock := now)
  {
    hide Contiguous, TasksOk, TokensDistinct, RunsUnique, JobsOk, Accounted, Perform, RowAfter, ExtendAttempts;
    TokenFindsOneAttempt(db, id, token);
    RunningHasOpenAttempt(db, id);
    PerformOne(db, id, Extend(token), now);
    ExtendOne(db.attempts, Key(id, db.runs[id].attemptCount), now + db.runs[id].spec.leaseDuration);
  }

  // ---------------------------------------------------------------------------
  // The steps of the worker-facing calls
  // ---------------------------------------------------------------------------

  lemma RefusedStep(db: Db, e: Event, id: RunId, token: Token)
    requires WorkerCall(e.action, id, token) && !LiveIn(db, id, token, e.now)
    requires db.clock <= e.now && e.txNow <= e.now
    ensures Next(db, e) == Advance(db, e.now)
    ensures Inv(db) ==> Inv(Next(db, e))
  {
    hide Inv;
    PerformNothing(db, e.now);
    if Inv(db) {
      StepKeeps(db, e);
    }
  }

  lemma FinalizeStep(db: Db, id: RunId, token: Token, outcome: Outcome, now: Time)
    requires Inv(db) && db.clock <= now && LiveIn(db, id, token, now)
    ensures |OpenFor(db.attempts, token)| == 1
    ensures var e := Event(Finalize(id, token, outcome), now, now);
      && Inv(Next(db, e))
      && Next(db, e) ==
         db.(runs := db.runs[id := RowAfter(db.runs[id], Finish(token, outcome), now)],
             attempts := CloseAttempts(db.attempts, OpenFor(db.attempts, token), now,
                                       AttemptOutcomeOf(outcome), ErrorOf(outcome)),
             clock := now)
  {
    hide Inv, Perform, CloseAttempts, RowAfter;
    StepKeeps(db, Event(Finalize(id, token, outcome), now, now));
    RecordIsLocal(db, id, token, Finish(token, outcome), AttemptOutcomeOf(outcome), ErrorOf(outcome), now);
  }

  /** FAIL leaves the row pending or failed, never in a third state. */
  lemma FaultState(r: Run, token: Token, error: string, retryable: bool, now: Time)
    ensures var row := RowAfter(r, Fault(token, error, retryable), now);
      if retryable && AttemptsRemain(r)
      then row.state == RunState.Pending && row.availableAt == now + r.spec.retryBackoff
      else row.state == RunState.Failed
  {
  }

  lemma FailStep(db: Db, id: RunId, token: Token, error: string, retryable: bool, now: Time)
    requires Inv(db) && db.clock <= now && LiveIn(db, id, token, now)
    ensures |OpenFor(db.attempts, token)| == 1
    ensures var e := Event(Fail(id, token, error, retryable), now, now);
      && Inv(Next(db, e))
      && Next(db, e) ==
         db.(runs := db.runs[id := RowAfter(db.runs[id], Fault(token, error, retryable), now)],
             attempts := CloseAttempts(db.attempts, OpenFor(db.attempts, token), now,
                                       AttemptOutcome.Failed, Some(error)),
             clock := now)
  {
    hide Inv, Perform, CloseAttempts, RowAfter;
    StepKeeps(db, Event(Fail(id, token, error, retryable), now, now));
    RecordIsLocal(db, id, token, Fault(token, error, retryable), AttemptOutcome.Failed, Some(error), now);
  }

  lemma RenewStep(db: Db, id: RunId, token: Token, now: Time)
    requires Inv(db) && db.clock <= now && LiveIn(db, id, token, now)
    ensures |OpenFor(db.attempts, token)| == 1
    ensures var e, until := Event(Renew(id, token), now, now), now + db.runs[id].spec.leaseDuration;
      && Inv(Next(db, e))
      && Next(db, e) ==
         db.(runs := db.runs[id := db.runs[id].(leaseExpiresAt := Some(until))],
             attempts := ExtendAttempts(db.attempts, OpenFor(db.attempts, token), until),
             clock := now)
  {
    hide Inv, Perform, ExtendAttempts;
    StepKeeps(db, Event(Renew(id, token), now, now));
    RenewIsLocal(db, id, token, now);
  }

  // ---------------------------------------------------------------------------
  // CLAIM_BATCH
  // ---------------------------------------------------------------------------

  predicate Eligible(r: Run, names: set<string>, txNow: Time) {
    r.state == RunState.Pending && r.availableAt <= txNow && r.spec.jobName in names
  }

  /** The unlocked candidates with their `ORDER BY priority DESC, available_at ASC, id ASC`. */
  function ClaimRanks(runs: map<RunId, Run>, names: set<string>, locked: set<RunId>, txNow: Time): map<RunId, Rank> {
    map id | id in runs && id !in locked && Eligible(runs[id], names, txNow) ::
      Rank(-runs[id].spec.priority, runs[id].availableAt)
  }

  /**
   CLAIM_BATCH takes pending, available, unlocked tasks of the given names, as many as the
   limit allows, by priority from high to low, then availability, then id.
   */
  ghost predicate TakesBest(runs: map<RunId, Run>, names: set<string>, locked: set<RunId>, txNow: Time,
                            limit: nat, picked: set<RunId>) {
    && (forall x :: x in picked ==>
          && x in runs && x !in locked && runs[x].state == RunState.Pending
          && runs[x].availableAt <= txNow && runs[x].spec.jobName in names)
    && (forall x, y ::
          && x in picked && x in runs && y in runs && y !in picked && y !in locked
          && runs[y].state == RunState.Pending
          && runs[y].availableAt <= txNow && runs[y].spec.jobName in names
          ==>
          || runs[x].spec.priority > runs[y].spec.priority
          || (runs[x].spec.priority == runs[y].spec.priority && runs[x].availableAt < runs[y].availableAt)
          || (runs[x].spec.priority == runs[y].spec.priority && runs[x].availableAt == runs[y].availableAt && x < y))
    && var n := |set y | y in runs && y !in locked && runs[y].state == RunState.Pending
                         && runs[y].availableAt <= txNow && runs[y].spec.jobName in names|;
       |picked| == if limit < n then limit else n
  }

  /** The ranks and LIMIT of the claim are that choice. */
  lemma ClaimTakesBest(runs: map<RunId, Run>, names: set<string>, locked: set<RunId>, txNow: Time,
                       limit: nat, picked: set<RunId>)
    requires IsBest(ClaimRanks(runs, names, locked, txNow), limit, picked)
    ensures TakesBest(runs, names, locked, txNow, limit, picked)
  {
    var ranks := ClaimRanks(runs, names, locked, txNow);
    assert ranks.Keys == set y | y in runs && y !in locked && runs[y].state == RunState.Pending
                                 && runs[y].availableAt <= txNow && runs[y].spec.jobName in names;
    assert |ranks| == |ranks.Keys|;
  }

  function StartedRuns(runs: map<RunId, Run>, worker: string, picked: map<RunId, Token>, now: Time): map<RunId, Run> {
    map id | id in runs :: if id in picked then RowAfter(runs[id], Start(worker, picked[id]), now) else runs[id]
  }

  function StartedKeys(runs: map<RunId, Run>, picked: map<RunId, Token>): set<Key> {
    set id | id in picked && id in runs :: Key(id, runs[id].attemptCount + 1)
  }

  function StartedAttempts(runs: map<RunId, Run>, worker: string, picked: map<RunId, Token>, now: Time)
    : map<Key, Attempt>
  {
    map k | k in StartedKeys(runs, picked) && k.run in picked && k.run in runs ::
      Opened(worker, picked[k.run], now, runs[k.run].spec.leaseDuration)
  }

  /** The UPDATE and the INSERT of the claim are its moves. */
  lemma ClaimStep(db: Db, worker: string, picked: map<RunId, Token>, txNow: Time, now: Time)
    requires Inv(db) && Enabled(db, Event(Claim(worker, picked), txNow, now))
    ensures Inv(Next(db, Event(Claim(worker, picked), txNow, now)))
    ensures Next(db, Event(Claim(worker, picked), txNow, now)) ==
      db.(runs := StartedRuns(db.runs, worker, picked, now),
          attempts := db.attempts + StartedAttempts(db.runs, worker, picked, now),
          clock := now,
          issued := db.issued + picked.Values)
  {
    var e := Event(Claim(worker, picked), txNow, now);
    StepKeeps(db, e);
    ClaimTables(db, worker, picked, txNow, now);
  }

  lemma ClaimTables(db: Db, worker: string, picked: map<RunId, Token>, txNow: Time, now: Time)
    requires Contiguous(db) && Enabled(db, Event(Claim(worker, picked), txNow, now))
    ensures Next(db, Event(Claim(worker, picked), txNow, now)) ==
      db.(runs := StartedRuns(db.runs, worker, picked, now),
          attempts := db.attempts + StartedAttempts(db.runs, worker, picked, now),
          clock := now,
          issued := db.issued + picked.Values)
  {
    var moves := map id | id in picked :: Start(worker, picked[id]);
    ClaimKeys(db, moves, worker, picked);
    StartedKeysAreNew(db, picked);
    ClaimAttempts(db, moves, worker, picked, now);
    ClaimRuns(db, moves, worker, picked, now);
    hide StartedRuns, StartedAttempts, StartedKeys, AttemptAt, RowAfter, Contiguous;
    assert Moves(db, Event(Claim(worker, picked), txNow, now)) == moves;
  }

  lemma ClaimRuns(db: Db, moves: map<RunId, Move>, worker: string, picked: map<RunId, Token>, now: Time)
    requires moves == map id | id in picked :: Start(worker, picked[id])
    ensures Perform(db, moves, now).runs == StartedRuns(db.runs, worker, picked, now)
  {
    hide AttemptAt, RowAfter;
  }

  lemma ClaimKeys(db: Db, moves: map<RunId, Move>, worker: string, picked: map<RunId, Token>)
    requires moves == map id | id in picked :: Start(worker, picked[id])
    requires picked.Keys <= db.runs.Keys
    ensures NewKeys(db, moves) == StartedKeys(db.runs, picked)
    ensures NewTokens(db, moves) == picked.Values
  {
    assert forall t :: t in NewTokens(db, moves) ==> t in picked.Values;
    forall t | t in picked.Values
      ensures t in NewTokens(db, moves)
    {
      var id :| id in picked && picked[id] == t;
      assert id in moves && moves[id].token == t;
    }
  }

  lemma ClaimAttempts(db: Db, moves: map<RunId, Move>, worker: string, picked: map<RunId, Token>, now: Time)
    requires NewKeys(db, moves) == StartedKeys(db.runs, picked)
    requires StartedKeys(db.runs, picked) !! db.attempts.Keys
    requires moves == map id | id in picked :: Start(worker, picked[id])
    requires forall id :: id in picked ==> id in db.runs && db.runs[id].state == RunState.Pending
    ensures Perform(db, moves, now).attempts == db.attempts + StartedAttempts(db.runs, worker, picked, now)
  {
    hide RowAfter, AttemptAt, StartedAttempts;
    var news := StartedAttempts(db.runs, worker, picked, now);
    var b := Perform(db, moves, now);
    forall k | k in b.attempts || k in db.attempts + news
      ensures k in b.attempts && k in db.attempts + news
      ensures AttemptAt(db, moves, now, k) == (db.attempts + news)[k]
    {
      ClaimAttemptAt(db, moves, worker, picked, now, k);
    }
  }

  lemma ClaimAttemptAt(db: Db, moves: map<RunId, Move>, worker: string, picked: map<RunId, Token>, now: Time, k: Key)
    requires StartedKeys(db.runs, picked) !! db.attempts.Keys
    requires NewKeys(db, moves) == StartedKeys(db.runs, picked)
    requires moves == map id | id in picked :: Start(worker, picked[id])
    requires forall id :: id in picked ==> id in db.runs && db.runs[id].state == RunState.Pending
    ensures var news := StartedAttempts(db.runs, worker, picked, now);
      && (k in news <==> k in StartedKeys(db.runs, picked))
      && (k in db.attempts ==> k !in news && AttemptAt(db, moves, now, k) == db.attempts[k])
      && (k in news ==> AttemptAt(db, moves, now, k) == news[k])
  {
    hide AttemptAfter;
  }

  lemma StartedKeysAreNew(db: Db, picked: map<RunId, Token>)
    requires Contiguous(db)
    ensures StartedKeys(db.runs, picked) !! db.attempts.Keys
  {
  }

  /** The row a claim returns for a task it has started. */
  function RowOf(id: RunId, r: Run): ClaimedRow
    requires r.leaseToken.Some? && r.leaseExpiresAt.Some?
  {
    ClaimedRow(id, r.spec, r.attemptCount, r.leaseToken.value, r.leaseExpiresAt.value,
               Durations.FromMicroseconds(r.spec.leaseDuration))
  }

  /** The checked conversion of one returned row. */
  function Convert(row: ClaimedRow): Result<ClaimedRun> {
    if row.attempt <= 0 then Err(Invariant("attempt_count must be positive after claim"))
    else
      match Durations.LeaseFromPg(row.leaseDuration)
      case Rejected(_) => Err(Invariant("claimed task has invalid lease duration"))
      case Accepted(lease) =>
        Ok(ClaimedRun(row.runId, row.spec, row.attempt, row.leaseToken, row.leaseExpiresAt, lease))
  }

  /** `map(...).collect()`: all claims, or the error of the first row that has one. */
  function ConvertAll(rows: seq<ClaimedRow>): Result<seq<ClaimedRun>> {
    if rows == [] then Ok([])
    else
      match Convert(rows[0])
      case Err(error) => Err(error)
      case Ok(claim) =>
        match ConvertAll(rows[1..])
        case Err(error) => Err(error)
        case Ok(claims) => Ok([claim] + claims)
  }

  /** Rows convert exactly when every number is positive and every interval passes its CHECK. */
  lemma {:induction false} ConvertsIff(rows: seq<ClaimedRow>)
    ensures ConvertAll(rows).Ok? <==>
      forall i :: 0 <= i < |rows| ==> rows[i].attempt > 0 && Durations.LeaseCheck(rows[i].leaseDuration)
    ensures ConvertAll(rows).Ok? ==>
      && |ConvertAll(rows).value| == |rows|
      && forall i :: 0 <= i < |rows| ==> Convert(rows[i]) == Ok(ConvertAll(rows).value[i])
  {
    hide Durations.LeaseCheck, Durations.LeaseFromPg;
    if rows != [] {
      ConvertsIff(rows[1..]);
      Durations.ChecksMatchReaders(rows[0].leaseDuration);
      assert rows == [rows[0]] + rows[1..];
    }
  }

  // ---------------------------------------------------------------------------
  // RECOVER and CANCEL
  // ---------------------------------------------------------------------------

  /** The attempts the writable CTE closes for the locked rows `batch`, given its snapshot. */
  function HitKeys(runs: map<RunId, Run>, attempts: map<Key, Attempt>, seen: map<Key, Attempt>,
                   batch: set<RunId>): set<Key> {
    set k | k in attempts && k in seen && HitBy(runs, attempts[k], seen[k], batch)
  }

  predicate HitBy(runs: map<RunId, Run>, current: Attempt, visible: Attempt, batch: set<RunId>) {
    exists id :: id in batch && id in runs && runs[id].leaseToken.Some?
                 && OpenWith(visible, runs[id].leaseToken.value) && OpenWith(current, runs[id].leaseToken.value)
  }

  predicate Guard(hits: set<Key>, id: RunId) {
    exists k :: k in hits && k.run == id
  }

  function RecoverRanks(runs: map<RunId, Run>, locked: set<RunId>, now: Time): map<RunId, Rank> {
    map id | id in runs && id !in locked && Overdue(runs[id], now) :: Rank(runs[id].leaseExpiresAt.value, 0)
  }

  function RecoveredRuns(runs: map<RunId, Run>, batch: set<RunId>, hits: set<Key>, now: Time): map<RunId, Run> {
    map id | id in runs ::
      if id in batch && Guard(hits, id) then RowAfter(runs[id], Expire, now) else runs[id]
  }

  /** For rows that are running, the keys hit are their own last attempts. */
  lemma HitIsLast(db: Db, snap: Db, batch: set<RunId>, k: Key)
    requires Inv(db) && k in HitKeys(db.runs, db.attempts, snap.attempts, batch)
    requires forall id :: id in batch ==> id in db.runs && db.runs[id].state == RunState.Running
    ensures k.run in batch && k == Key(k.run, db.runs[k.run].attemptCount)
    ensures AttemptRecorded(db, snap, k.run)
  {
    var id :| id in batch && id in db.runs && db.runs[id].leaseToken.Some?
              && OpenWith(snap.attempts[k], db.runs[id].leaseToken.value)
              && OpenWith(db.attempts[k], db.runs[id].leaseToken.value);
    TokenFindsOneAttempt(db, id, db.runs[id].leaseToken.value);
    hide Inv;
    assert k in OpenFor(db.attempts, db.runs[id].leaseToken.value);
    assert k in Recorded(db, snap, db.runs[id].leaseToken.value);
  }

  /** The EXISTS guards of the statements, computed from the keys hit. */
  lemma GuardIsRecorded(db: Db, snap: Db, batch: set<RunId>, id: RunId)
    requires Inv(db) && id in batch
    requires forall i :: i in batch ==> i in db.runs && db.runs[i].state == RunState.Running
    ensures Guard(HitKeys(db.runs, db.attempts, snap.attempts, batch), id) <==> AttemptRecorded(db, snap, id)
    ensures AttemptRecorded(db, snap, id) <==>
      Key(id, db.runs[id].attemptCount) in HitKeys(db.runs, db.attempts, snap.attempts, batch)
  {
    var hits := HitKeys(db.runs, db.attempts, snap.attempts, batch);
    if Guard(hits, id) {
      var k :| k in hits && k.run == id;
      HitIsLast(db, snap, batch, k);
    }
    if AttemptRecorded(db, snap, id) {
      var token := db.runs[id].leaseToken.value;
      var k :| k in Recorded(db, snap, token) && k.run == id;
      assert HitBy(db.runs, db.attempts[k], snap.attempts[k], batch);
      assert k in hits;
      HitIsLast(db, snap, batch, k);
    }
  }

  lemma RecoverStep(db: Db, batch: set<RunId>, snap: Db, now: Time)
    requires Inv(db) && Enabled(db, Event(Recover(batch, snap), now, now))
    ensures Inv(Next(db, Event(Recover(batch, snap), now, now)))
    ensures var hits := HitKeys(db.runs, db.attempts, snap.attempts, batch);
      Next(db, Event(Recover(batch, snap), now, now)) ==
      db.(runs := RecoveredRuns(db.runs, batch, hits, now),
          attempts := CloseAttempts(db.attempts, hits, now, AttemptOutcome.Expired, Some(LEASE_EXPIRED)),
          clock := now)
  {
    hide Inv, Perform;
    var e := Event(Recover(batch, snap), now, now);
    StepKeeps(db, e);
    var hits := HitKeys(db.runs, db.attempts, snap.attempts, batch);
    forall id | id in batch
      ensures Guard(hits, id) <==> AttemptRecorded(db, snap, id)
      ensures AttemptRecorded(db, snap, id) <==> Key(id, db.runs[id].attemptCount) in hits
    {
      GuardIsRecorded(db, snap, batch, id);
    }
    forall k | k in hits
      ensures k.run in batch && k == Key(k.run, db.runs[k.run].attemptCount)
    {
      HitIsLast(db, snap, batch, k);
    }
    RecoverTables(db, Moves(db, e), batch, hits, now);
  }

  lemma RecoverTables(db: Db, moves: map<RunId, Move>, batch: set<RunId>, hits: set<Key>, now: Time)
    requires batch <= db.runs.Keys && forall id :: id in batch ==> db.runs[id].state == RunState.Running
    requires forall id :: id in moves <==> id in batch && Guard(hits, id)
    requires forall id :: id in moves ==> moves[id] == Expire
    requires forall id :: id in batch && Guard(hits, id) ==> Key(id, db.runs[id].attemptCount) in hits
    requires forall k :: k in hits ==> k.run in batch && k == Key(k.run, db.runs[k.run].attemptCount)
    ensures Perform(db, moves, now) ==
      db.(runs := RecoveredRuns(db.runs, batch, hits, now),
          attempts := CloseAttempts(db.attempts, hits, now, AttemptOutcome.Expired, Some(LEASE_EXPIRED)),
          clock := now)
  {
    var b := Perform(db, moves, now);
    assert NewKeys(db, moves) == {} && NewTokens(db, moves) == {};
    assert b.runs == RecoveredRuns(db.runs, batch, hits, now);
    forall k | k in db.attempts
      ensures Current(db, moves, k) <==> k in hits
    {
      if k in hits {
        assert Guard(hits, k.run);
      }
    }
    assert b.attempts == CloseAttempts(db.attempts, hits, now, AttemptOutcome.Expired, Some(LEASE_EXPIRED));
  }

  /** Cancelling a pending task touches its row only. */
  lemma CancelPendingStep(db: Db, id: RunId, snap: Db, now: Time)
    requires id in db.runs && id in snap.runs && db.runs[id].state == RunState.Pending
    ensures Next(db, Event(Cancel(id, snap), now, now)) ==
      db.(runs := db.runs[id := RowAfter(db.runs[id], Abort, now)], clock := now)
  {
    var moves := map[id := Abort];
    assert NewKeys(db, moves) == {} && NewTokens(db, moves) == {};
    var b := Perform(db, moves, now);
    assert b.runs == db.runs[id := RowAfter(db.runs[id], Abort, now)];
    assert b.attempts == db.attempts;
  }

  lemma CancelRunningStep(db: Db, id: RunId, snap: Db, now: Time)
    requires Inv(db) && id in db.runs && id in snap.runs && db.runs[id].state == RunState.Running
    ensures var hits := HitKeys(db.runs, db.attempts, snap.attempts, {id});
      && (Guard(hits, id) <==> Cancellable(db, snap, id))
      && Next(db, Event(Cancel(id, snap), now, now)) ==
         db.(runs := if Guard(hits, id) then db.runs[id := RowAfter(db.runs[id], Abort, now)] else db.runs,
             attempts := CloseAttempts(db.attempts, hits, now, AttemptOutcome.Cancelled, None),
             clock := now)
  {
    hide Inv, Perform, RowAfter;
    var hits := HitKeys(db.runs, db.attempts, snap.attempts, {id});
    var last := Key(id, db.runs[id].attemptCount);
    GuardIsRecorded(db, snap, {id}, id);
    forall k | k in hits
      ensures k == last
    {
      HitIsLast(db, snap, {id}, k);
    }
    if Guard(hits, id) {
      assert hits == {last};
      ContiguousOf(db);
      PerformOne(db, id, Abort, now);
      CloseOne(db.attempts, last, now, AttemptOutcome.Cancelled, None);
    } else {
      assert hits == {} by {
        assert forall k :: k in hits ==> Guard(hits, id);
      }
      assert CloseAttempts(db.attempts, {}, now, AttemptOutcome.Cancelled, None) == db.attempts;
      PerformNothing(db, now);
    }
  }

  lemma ContiguousOf(db: Db)
    requires Inv(db)
    ensures Contiguous(db)
  {
  }

  // ---------------------------------------------------------------------------
  // Counting the rows of a recovery
  // ---------------------------------------------------------------------------

  function CountOf(rows: seq<RunState>, s: RunState): nat {
    if rows == [] then 0
    else CountOf(rows[..|rows| - 1], s) + if rows[|rows| - 1] == s then 1 else 0
  }

  lemma CountAppend(rows: seq<RunState>, x: RunState, s: RunState)
    ensures CountOf(rows + [x], s) == CountOf(rows, s) + if x == s then 1 else 0
  {
    assert (rows + [x])[..|rows|] == rows;
  }

  /** The counting loop of `recover_expired`. */
  method Summarize(rows: seq<RunState>) returns (r: Result<RecoverySummary>)
    ensures r.Ok? <==> forall i :: 0 <= i < |rows| ==> rows[i] == RunState.Pending || rows[i] == RunState.Failed
    ensures r.Ok? ==>
      && r.value.requeued == CountOf(rows, RunState.Pending)
      && r.value.failed == CountOf(rows, RunState.Failed)
      && r.value.requeued + r.value.failed == |rows|
  {
    var requeued, failed := 0, 0;
    for i := 0 to |rows|
      invariant forall j :: 0 <= j < i ==> rows[j] == RunState.Pending || rows[j] == RunState.Failed
      invariant requeued == CountOf(rows[..i], RunState.Pending)
      invariant failed == CountOf(rows[..i], RunState.Failed)
      invariant requeued + failed == i
    {
      assert rows[..i + 1] == rows[..i] + [rows[i]];
      CountAppend(rows[..i], rows[i], RunState.Pending);
      CountAppend(rows[..i], rows[i], RunState.Failed);
      match rows[i] {
        case Pending => requeued := requeued + 1;
        case Failed => failed := failed + 1;
        case _ => return Err(Invariant("expired recovery produced invalid state"));
      }
    }
    assert rows[..|rows|] == rows;
    r := Ok(RecoverySummary(requeued, failed));
  }

  function MovedIds(best: seq<RunId>, hits: set<Key>): set<RunId> {
    set i | 0 <= i < |best| && Guard(hits, best[i]) :: best[i]
  }

  function InState(runs: map<RunId, Run>, ids: set<RunId>, s: RunState): set<RunId> {
    set id | id in ids && id in runs && runs[id].state == s
  }

  function RunningIds(runs: map<RunId, Run>): set<RunId> {
    set id | id in runs && runs[id].state == RunState.Running
  }

  lemma MovedIdsGrow(best: seq<RunId>, hits: set<Key>, i: nat)
    requires i < |best| && forall j :: 0 <= j < i ==> best[j] != best[i]
    ensures best[i] !in MovedIds(best[..i], hits)
    ensures MovedIds(best[..i + 1], hits) ==
      MovedIds(best[..i], hits) + if Guard(hits, best[i]) then {best[i]} else {}
  {
    hide Guard;
    assert best[..i + 1] == best[..i] + [best[i]];
  }

  lemma InStateGrows(runs: map<RunId, Run>, ids: set<RunId>, x: RunId, s: RunState)
    requires x in runs && x !in ids
    ensures |InState(runs, ids + {x}, s)| == |InState(runs, ids, s)| + if runs[x].state == s then 1 else 0
  {
    assert InState(runs, ids + {x}, s) == InState(runs, ids, s) + if runs[x].state == s then {x} else {};
  }

  lemma NothingMoved(runs: map<RunId, Run>, hits: set<Key>)
    ensures MovedIds([], hits) == {} && CountOf([], RunState.Pending) == 0 && CountOf([], RunState.Failed) == 0
    ensures InState(runs, {}, RunState.Pending) == {} && InState(runs, {}, RunState.Failed) == {}
  {
  }

  /** `SELECT state FROM recovered`, one row for every task that was moved. */
  method ReturnedStates(runs: map<RunId, Run>, best: seq<RunId>, hits: set<Key>) returns (rows: seq<RunState>)
    requires forall i :: 0 <= i < |best| ==> best[i] in runs
    requires forall i, j :: 0 <= i < j < |best| ==> best[i] != best[j]
    requires forall i :: 0 <= i < |best| && Guard(hits, best[i]) ==>
      runs[best[i]].state == RunState.Pending || runs[best[i]].state == RunState.Failed
    ensures |rows| == |MovedIds(best, hits)|
    ensures CountOf(rows, RunState.Pending) == |InState(runs, MovedIds(best, hits), RunState.Pending)|
    ensures CountOf(rows, RunState.Failed) == |InState(runs, MovedIds(best, hits), RunState.Failed)|
    ensures forall i :: 0 <= i < |rows| ==> rows[i] == RunState.Pending || rows[i] == RunState.Failed
  {
    hide Guard, MovedIds, InState, CountOf;
    NothingMoved(runs, hits);
    rows := [];
    ghost var moved: set<RunId> := {};
    assert best[..0] == [];
    for i := 0 to |best|
      invariant moved == MovedIds(best[..i], hits) && |rows| == |moved|
      invariant CountOf(rows, RunState.Pending) == |InState(runs, moved, RunState.Pending)|
      invariant CountOf(rows, RunState.Failed) == |InState(runs, moved, RunState.Failed)|
      invariant forall j :: 0 <= j < |rows| ==> rows[j] == RunState.Pending || rows[j] == RunState.Failed
    {
      MovedIdsGrow(best, hits, i);
      if Guard(hits, best[i]) {
        CountAppend(rows, runs[best[i]].state, RunState.Pending);
        CountAppend(rows, runs[best[i]].state, RunState.Failed);
        InStateGrows(runs, moved, best[i], RunState.Pending);
        InStateGrows(runs, moved, best[i], RunState.Failed);
        moved := moved + {best[i]};
        rows := rows + [runs[best[i]].state];
      }
    }
    assert best[..|best|] == best;
  }

  /** The candidates of a claim and the token each is given. */
  method PickClaims(runs: map<RunId, Run>, names: set<string>, limit: nat, locked: set<RunId>,
                    tokens: map<RunId, Token>, txNow: Time)
    returns (picked: map<RunId, Token>)
    requires runs.Keys <= tokens.Keys
    ensures TakesBest(runs, names, locked, txNow, limit, picked.Keys)
    ensures IsBest(ClaimRanks(runs, names, locked, txNow), limit, picked.Keys)
    ensures picked.Keys <= ClaimRanks(runs, names, locked, txNow).Keys
    ensures forall id :: id in picked ==> id in tokens && picked[id] == tokens[id]
  {
    var ranks := ClaimRanks(runs, names, locked, txNow);
    var best := SelectBest(ranks, limit);
    assert Elements(best) <= tokens.Keys;
    picked := map id | id in Elements(best) :: tokens[id];
    assert picked.Keys == Elements(best);
    ClaimTakesBest(runs, names, locked, txNow, limit, picked.Keys);
  }

  lemma TokensCover(tokens: map<RunId, Token>, runs: map<RunId, Run>, issued: set<Token>)
    requires FreshTokens(tokens, runs, issued)
    ensures runs.Keys <= tokens.Keys
  {
  }

  /** A claim as the worker receives it, for a row as it was before the claim. */
  predicate ClaimedFrom(c: ClaimedRun, runs: map<RunId, Run>, picked: map<RunId, Token>, now: Time) {
    && c.runId in picked && c.runId in runs
    && c.leaseToken == picked[c.runId]
    && c.spec == runs[c.runId].spec
    && c.attempt == runs[c.runId].attemptCount + 1
    && c.leaseExpiresAt == now + c.spec.leaseDuration
    && c.leaseDuration == Durations.LeaseDuration(c.spec.leaseDuration)
  }

  predicate RowFrom(row: ClaimedRow, runs: map<RunId, Run>, picked: map<RunId, Token>, now: Time) {
    && row.runId in picked && row.runId in runs
    && row.leaseToken == picked[row.runId]
    && row.spec == runs[row.runId].spec
    && row.attempt == runs[row.runId].attemptCount + 1
    && row.leaseExpiresAt == now + row.spec.leaseDuration
    && row.leaseDuration == Durations.FromMicroseconds(row.spec.leaseDuration)
  }

  /** (scheduled_for, id) of `x` sorts before that of `y`. */
  predicate SortsBefore(s: Spec, x: RunId, t: Spec, y: RunId) {
    s.scheduledFor < t.scheduledFor || (s.scheduledFor == t.scheduledFor && x < y)
  }

  /** The returned rows are those of picked tasks, in order. */
  ghost predicate RowsFrom(rows: seq<ClaimedRow>, runs: map<RunId, Run>, picked: map<RunId, Token>, now: Time) {
    && (forall i :: 0 <= i < |rows| ==> RowFrom(rows[i], runs, picked, now))
    && (forall i, j :: 0 <= i < j < |rows| ==>
          SortsBefore(rows[i].spec, rows[i].runId, rows[j].spec, rows[j].runId))
  }

  /** Claims of picked tasks, in order, each with a handler and a deadline to come. */
  ghost predicate Dispatchable(claimed: seq<ClaimedRun>, runs: map<RunId, Run>, picked: map<RunId, Token>,
                               names: set<string>, now: Time) {
    && (forall i :: 0 <= i < |claimed| ==>
          && ClaimedFrom(claimed[i], runs, picked, now)
          && claimed[i].spec.jobName in names && claimed[i].leaseExpiresAt > now)
    && (forall i, j :: 0 <= i < j < |claimed| ==>
          SortsBefore(claimed[i].spec, claimed[i].runId, claimed[j].spec, claimed[j].runId))
  }

  /** The rows a claim returns, `ORDER BY scheduled_for, run_id`. */
  method CollectClaims(runs: map<RunId, Run>, worker: string, picked: map<RunId, Token>, now: Time)
    returns (rows: seq<ClaimedRow>)
    requires picked.Keys <= runs.Keys
    ensures |rows| == |picked| && RowsFrom(rows, runs, picked, now)
  {
    var ranks := map id | id in picked :: Rank(runs[id].spec.scheduledFor, 0);
    assert ranks.Keys == picked.Keys;
    var order := OrderBy(ranks);
    assert forall i :: 0 <= i < |order| ==> order[i] in picked;
    rows := seq(|order|, i requires 0 <= i < |order| =>
      RowOf(order[i], RowAfter(runs[order[i]], Start(worker, picked[order[i]]), now)));
  }

  /** What `gen_random_uuid()` is assumed to give: a token per row, all new and distinct. */
  ghost predicate FreshTokens(tokens: map<RunId, Token>, runs: map<RunId, Run>, issued: set<Token>) {
    && runs.Keys <= tokens.Keys && tokens.Values !! issued
    && forall i, j | i in tokens && j in tokens :: tokens[i] == tokens[j] ==> i == j
  }

  lemma ClaimIsEnabled(db: Db, worker: string, names: set<string>, locked: set<RunId>,
                       picked: map<RunId, Token>, tokens: map<RunId, Token>, txNow: Time, now: Time)
    requires db.clock <= now && txNow <= now
    requires picked.Keys <= ClaimRanks(db.runs, names, locked, txNow).Keys
    requires forall id :: id in picked ==> id in tokens && picked[id] == tokens[id]
    requires FreshTokens(tokens, db.runs, db.issued)
    ensures Enabled(db, Event(Claim(worker, picked), txNow, now))
  {
    forall id | id in picked
      ensures picked[id] !in db.issued
    {
      assert tokens[id] in tokens.Values;
    }
  }

  /** The claim of picked candidates: its tables, its invariant, and what it hands out. */
  lemma ClaimReady(db: Db, worker: string, names: set<string>, locked: set<RunId>,
                   picked: map<RunId, Token>, tokens: map<RunId, Token>, txNow: Time, now: Time)
    requires Inv(db) && db.clock <= now && txNow <= now && FreshTokens(tokens, db.runs, db.issued)
    requires picked.Keys <= ClaimRanks(db.runs, names, locked, txNow).Keys
    requires forall id :: id in picked ==> id in tokens && picked[id] == tokens[id]
    ensures Enabled(db, Event(Claim(worker, picked), txNow, now))
    ensures Inv(Next(db, Event(Claim(worker, picked), txNow, now)))
    ensures Next(db, Event(Claim(worker, picked), txNow, now)) ==
      db.(runs := StartedRuns(db.runs, worker, picked, now),
          attempts := db.attempts + StartedAttempts(db.runs, worker, picked, now),
          clock := now,
          issued := db.issued + picked.Values)
    ensures picked.Keys <= db.runs.Keys
    ensures forall id :: id in picked ==>
      id in db.runs && db.runs[id].spec.jobName in names && db.runs[id].spec.leaseDuration > 0
  {
    hide Inv, Next, Enabled, StartedRuns, StartedAttempts, ClaimRanks, FreshTokens;
    ClaimIsEnabled(db, worker, names, locked, picked, tokens, txNow, now);
    ClaimStep(db, worker, picked, txNow, now);
    ClaimsAreEligible(db, names, locked, txNow, picked);
  }

  lemma ClaimsAreEligible(db: Db, names: set<string>, locked: set<RunId>, txNow: Time, picked: map<RunId, Token>)
    requires Inv(db) && picked.Keys <= ClaimRanks(db.runs, names, locked, txNow).Keys
    ensures forall id :: id in picked ==>
      id in db.runs && db.runs[id].spec.jobName in names && db.runs[id].spec.leaseDuration > 0
  {
    forall id | id in picked
      ensures id in db.runs && db.runs[id].spec.jobName in names && db.runs[id].spec.leaseDuration > 0
    {
      TaskAt(db, id);
    }
  }

  /** Every returned row converts: neither conversion error of `claim_batch` can occur. */
  lemma ClaimsConvert(rows: seq<ClaimedRow>, runs: map<RunId, Run>, picked: map<RunId, Token>,
                      names: set<string>, now: Time)
    requires RowsFrom(rows, runs, picked, now)
    requires forall id :: id in picked ==>
      id in runs && runs[id].spec.jobName in names && runs[id].spec.leaseDuration > 0
    ensures ConvertAll(rows).Ok? && |ConvertAll(rows).value| == |rows|
    ensures Dispatchable(ConvertAll(rows).value, runs, picked, names, now)
  {
    hide SortsBefore, ConvertAll;
    ConvertsIff(rows);
    forall i | 0 <= i < |rows|
      ensures rows[i].attempt > 0 && Durations.LeaseCheck(rows[i].leaseDuration)
    {
      assert RowFrom(rows[i], runs, picked, now);
    }
    var claimed := ConvertAll(rows).value;
    forall i | 0 <= i < |claimed|
      ensures ClaimedFrom(claimed[i], runs, picked, now)
      ensures claimed[i].spec.jobName in names && claimed[i].leaseExpiresAt > now
      ensures claimed[i].spec == rows[i].spec && claimed[i].runId == rows[i].runId
    {
      assert RowFrom(rows[i], runs, picked, now) && Convert(rows[i]) == Ok(claimed[i]);
    }
  }

  lemma RecoverMoves(db: Db, batch: set<RunId>, snap: Db, best: seq<RunId>, now: Time)
    requires Inv(db) && Enabled(db, Event(Recover(batch, snap), now, now)) && batch == Elements(best)
    ensures var hits := HitKeys(db.runs, db.attempts, snap.attempts, batch);
      var after := RecoveredRuns(db.runs, batch, hits, now);
      && Moves(db, Event(Recover(batch, snap), now, now)).Keys == MovedIds(best, hits)
      && after.Keys == db.runs.Keys
      && RunningIds(after) == RunningIds(db.runs) - MovedIds(best, hits)
      && MovedIds(best, hits) <= RunningIds(db.runs)
      && (forall id :: id in MovedIds(best, hits) ==>
            id in after && (after[id].state == RunState.Pending || after[id].state == RunState.Failed))
  {
    var e := Event(Recover(batch, snap), now, now);
    var hits := HitKeys(db.runs, db.attempts, snap.attempts, batch);
    hide Inv, HitKeys;
    forall id | id in batch
      ensures Guard(hits, id) <==> AttemptRecorded(db, snap, id)
    {
      GuardIsRecorded(db, snap, batch, id);
    }
    hide Guard, AttemptRecorded;
    assert forall id :: id in MovedIds(best, hits) <==> id in batch && Guard(hits, id);
    assert Moves(db, e).Keys == MovedIds(best, hits);
    RecoveredStates(db.runs, batch, hits, MovedIds(best, hits), now);
  }

  lemma RecoveredStates(runs: map<RunId, Run>, batch: set<RunId>, hits: set<Key>, moved: set<RunId>, now: Time)
    requires forall id :: id in moved <==> id in batch && Guard(hits, id)
    requires forall id :: id in batch ==> id in runs && Overdue(runs[id], now)
    ensures var after := RecoveredRuns(runs, batch, hits, now);
      && RunningIds(after) == RunningIds(runs) - moved && moved <= RunningIds(runs)
      && (forall id :: id in moved ==>
            id in after && (after[id].state == RunState.Pending || after[id].state == RunState.Failed))
  {
    hide Guard;
    var after := RecoveredRuns(runs, batch, hits, now);
    assert forall id :: id in after ==>
        after[id] == if id in moved then RowAfter(runs[id], Expire, now) else runs[id];
  }

  // ---------------------------------------------------------------------------
  // PRUNE and ENQUEUE
  // ---------------------------------------------------------------------------

  predicate Prunable(r: Run, before: Time) {
    Terminal(r) && r.finishedAt.Some? && r.finishedAt.value < before
  }

  function PruneRanks(runs: map<RunId, Run>, locked: set<RunId>, before: Time): map<RunId, Rank> {
    map id | id in runs && id !in locked && Prunable(runs[id], before) :: Rank(runs[id].finishedAt.value, 0)
  }

  function KeptRuns(runs: map<RunId, Run>, doomed: set<RunId>): (kept: map<RunId, Run>)
    ensures kept.Keys == runs.Keys - doomed
  {
    map id | id in runs && id !in doomed :: runs[id]
  }

  /** The foreign key deletes the attempts of a task with it. */
  function KeptAttempts(attempts: map<Key, Attempt>, doomed: set<RunId>): (kept: map<Key, Attempt>)
    ensures forall k :: k in attempts ==> (k !in kept <==> k.run in doomed)
  {
    map k | k in attempts && k.run !in doomed :: attempts[k]
  }

  /** Deleting the doomed rows and, by cascade, exactly their attempts is the step. */
  lemma PruneStep(db: Db, doomed: set<RunId>, locked: set<RunId>, before: Time, now: Time)
    requires Inv(db) && db.clock <= now && doomed <= PruneRanks(db.runs, locked, before).Keys
    ensures Enabled(db, Event(Prune(doomed, before), now, now))
    ensures Inv(Next(db, Event(Prune(doomed, before), now, now)))
    ensures Next(db, Event(Prune(doomed, before), now, now)) ==
      db.(runs := KeptRuns(db.runs, doomed), attempts := KeptAttempts(db.attempts, doomed),
          pruned := db.pruned + doomed, clock := now)
    ensures forall id :: id in doomed ==> id in db.runs && Prunable(db.runs[id], before)
  {
    hide Inv;
    StepKeeps(db, Event(Prune(doomed, before), now, now));
    assert doomed * db.runs.Keys == doomed;
  }

  /** The holder of a deduplication key is the only one, and enqueueing again changes nothing. */
  lemma DedupStep(db: Db, e: Event, holder: RunId)
    requires Inv(db) && e.action.Enqueue? && holder in db.runs
    requires SameDedup(Newborn(EnqueuedSpec(e.action.spec, e.action.at, e.txNow), 0), db.runs[holder])
    ensures Next(db, e) == Advance(db, e.now)
    ensures forall i :: i in db.runs && SameDedup(Newborn(e.action.spec, 0), db.runs[i]) ==> i == holder
  {
    hide Contiguous, TasksOk, TokensDistinct, JobsOk, Accounted;
    forall i | i in db.runs && SameDedup(Newborn(e.action.spec, 0), db.runs[i])
      ensures i == holder
    {
      assert SameDedup(db.runs[i], db.runs[holder]);
    }
  }

  lemma NewIdIsNew(db: Db, id: RunId)
    requires Inv(db) && id !in db.created
    ensures id !in db.runs
  {
  }

  lemma EnqueueStep(db: Db, e: Event)
    requires e.action.Enqueue?
    requires !DedupTaken(db, EnqueuedSpec(e.action.spec, e.action.at, e.txNow))
    ensures var s := EnqueuedSpec(e.action.spec, e.action.at, e.txNow);
      Next(db, e) == db.(runs := db.runs[e.action.newId := Newborn(s, s.scheduledFor)],
                         created := db.created + {e.action.newId}, clock := e.now)
    ensures forall i :: i in db.runs ==> !SameDedup(Newborn(e.action.spec, 0), db.runs[i])
  {
    forall i | i in db.runs
      ensures !SameDedup(Newborn(e.action.spec, 0), db.runs[i])
    {
      assert !SameDedup(Newborn(EnqueuedSpec(e.action.spec, e.action.at, e.txNow), 0), db.runs[i]);
    }
  }

  // ---------------------------------------------------------------------------
  // The materializer
  // ---------------------------------------------------------------------------

  /** The cron engine: what parsing a stored expression and asking it for the next
      occurrence after an instant gives. */
  type Engine = (string, Time) -> Cron

  ghost predicate EngineOk(engine: Engine) {
    forall cron: string, t: Time :: AnswerOk(engine(cron, t), t)
  }

  /** The unlocked jobs SELECT_DUE can choose from. */
  function DueJobs(jobs: map<JobId, Job>, locked: set<JobId>, txNow: Time): set<JobId> {
    set j | j in jobs && j !in locked && Due(jobs[j], txNow)
  }

  predicate IsEarliest(jobs: map<JobId, Job>, due: set<JobId>, job: JobId) {
    job in due && forall j :: j in due && j in jobs && job in jobs ==> jobs[job].nextRunAt <= jobs[j].nextRunAt
  }

  lemma {:induction false} HasEarliest(jobs: map<JobId, Job>, due: set<JobId>) returns (job: JobId)
    requires due != {} && due <= jobs.Keys
    ensures IsEarliest(jobs, due, job)
    decreases |due|
  {
    job :| job in due;
    if due != {job} {
      var rest := due - {job};
      assert due == rest + {job};
      var other := HasEarliest(jobs, rest);
      if jobs[other].nextRunAt < jobs[job].nextRunAt {
        job := other;
      }
    }
  }

  /** `ORDER BY next_run_at ASC ... LIMIT 1`; ties are PostgreSQL's choice. */
  method PickEarliest(jobs: map<JobId, Job>, due: set<JobId>) returns (job: JobId)
    requires due != {} && due <= jobs.Keys
    ensures IsEarliest(jobs, due, job) && job in jobs
  {
    ghost var earliest := HasEarliest(jobs, due);
    job :| job in due && IsEarliest(jobs, due, job);
  }

  lemma AllJobsKnown(db: Db)
    requires Inv(db)
    ensures db.jobs.Keys <= db.jobsCreated
  {
  }

  lemma KnownJobs(jobs: map<JobId, Job>, known: set<JobId>, job: JobId)
    requires jobs.Keys <= known && job in jobs
    ensures forall j: Job {:trigger jobs[job := j]} :: known + jobs[job := j].Keys == known
  {
  }

  /** The writes of a materializer transaction, answer by answer. */
  lemma MaterializeStep(db: Db, e: Event)
    requires Inv(db) && db.clock <= e.now && e.txNow <= e.now
    requires e.action.Materialize? && e.action.job in db.jobs && Due(db.jobs[e.action.job], e.txNow)
    requires e.action.newId !in db.created && AnswerOk(e.action.answer, e.txNow)
    ensures Enabled(db, e) && Inv(Next(db, e))
    ensures var a, j := e.action, db.jobs[e.action.job];
      Next(db, e) ==
      match a.answer
      case Corrupt => db.(jobs := db.jobs[a.job := j.(paused := true)], clock := e.now)
      case NoNext => Advance(db, e.now)
      case NextAt(at) =>
        var moved := db.(jobs := db.jobs[a.job := j.(nextRunAt := at)], clock := e.now);
        if OccurrenceIn(db.runs, OccurrenceSpec(a.job, j)) then moved
        else moved.(runs := db.runs[a.newId := Newborn(OccurrenceSpec(a.job, j), j.nextRunAt)],
                    created := db.created + {a.newId},
                    minted := db.minted + multiset{Occurrence(a.job, j.nextRunAt)})
  {
    StepKeeps(db, e);
    assert db.jobs.Keys <= db.jobsCreated;
    hide Inv, OccurrenceIn;
    KnownJobs(db.jobs, db.jobsCreated, e.action.job);
  }

  /** Materializing a due job takes it, and only it, out of the due set. */
  lemma MaterializeLeavesDue(db: Db, job: JobId, newId: RunId, answer: Cron, locked: set<JobId>, txNow: Time, now: Time)
    requires job in DueJobs(db.jobs, locked, txNow) && AnswerOk(answer, txNow) && !answer.NoNext?
    ensures var b := AfterMaterialize(db, job, newId, answer, now);
      && DueJobs(b.jobs, locked, txNow) == DueJobs(db.jobs, locked, txNow) - {job}
      && b.jobs.Keys == db.jobs.Keys
      && (forall j :: j in db.jobs && j != job ==> b.jobs[j] == db.jobs[j])
      && b.created <= db.created + {newId}
  {
  }

  // ---------------------------------------------------------------------------
  // ensure_job and reschedule
  // ---------------------------------------------------------------------------

  /** Registering a taken name reconfigures the one job that has it and keeps the rest. */
  lemma EnsureExisting(db: Db, newJob: JobId, config: Job, answer: Cron, now: Time, holder: JobId)
    requires Inv(db) && answer.NextAt? && holder in db.jobs && db.jobs[holder].name == config.name
    ensures AfterEnsure(db, newJob, config, answer, now) ==
      db.(jobs := db.jobs[holder := Reconfigured(db.jobs[holder], config)], clock := now)
  {
    var b := AfterEnsure(db, newJob, config, answer, now);
    assert NameTaken(db, config.name);
    hide Contiguous, TasksOk, TokensDistinct, RunsUnique, Accounted;
    assert b.jobs == db.jobs[holder := Reconfigured(db.jobs[holder], config)];
    assert b.jobsCreated == db.jobsCreated;
  }

  lemma EnsureNew(db: Db, newJob: JobId, config: Job, answer: Cron, now: Time)
    requires Inv(db) && answer.NextAt? && forall i :: i in db.jobs ==> db.jobs[i].name != config.name
    ensures AfterEnsure(db, newJob, config, answer, now) ==
      db.(jobs := db.jobs[newJob := config.(nextRunAt := answer.at)],
          jobsCreated := db.jobsCreated + {newJob}, clock := now)
  {
    AllJobsKnown(db);
    hide Inv;
    assert !NameTaken(db, config.name);
    assert db.jobsCreated + db.jobs[newJob := config.(nextRunAt := answer.at)].Keys == db.jobsCreated + {newJob};
  }

  lemma RescheduleTables(db: Db, job: JobId, at: Time, now: Time)
    requires Inv(db) && job in db.jobs
    ensures WithJobs(db, db.jobs[job := db.jobs[job].(nextRunAt := at)], now) ==
      db.(jobs := db.jobs[job := db.jobs[job].(nextRunAt := at)], clock := now)
  {
    assert db.jobs.Keys <= db.jobsCreated;
    hide Inv;
    KnownJobs(db.jobs, db.jobsCreated, job);
  }
}
