/**
 One task seen on its own: its `scheduler_runs` row together with its attempts in
 order.  Every queue transaction acts on each task as one `Move` of this automaton
 (proved in `Protocol`), so what a move keeps, the whole queue keeps.
 */
module Lease {
  import opened Rows

  datatype Task = Task(run: Run, log: seq<Attempt>)

  /** What a worker reports through `finalize_run`. */
  datatype Outcome = Succeeded | Errored(error: string)

  datatype Move =
    | Stay
    | Start(worker: string, token: Token)
    | Extend(token: Token)
    | Finish(token: Token, outcome: Outcome)
    | Fault(token: Token, error: string, retryable: bool)
    | Expire
    | Abort

  const LEASE_EXPIRED := "lease expired"
  const ATTEMPTS_EXHAUSTED := "lease expired; max attempts exhausted"

  // ---------------------------------------------------------------------------
  // The predicates of the UPDATE statements
  // ---------------------------------------------------------------------------

  /** The WHERE clause shared by FINALIZE, FAIL and RENEW. */
  predicate Live(r: Run, token: Token, now: Time) {
    && r.state == RunState.Running
    && r.leaseToken == Some(token)
    && r.leaseExpiresAt.Some?
    && r.leaseExpiresAt.value > now
  }

  /** The WHERE clause of RECOVER's candidates. */
  predicate Overdue(r: Run, now: Time) {
    && r.state == RunState.Running
    && r.leaseExpiresAt.Some?
    && r.leaseExpiresAt.value <= now
  }

  predicate AttemptsRemain(r: Run) {
    r.attemptCount < r.spec.maxAttempts
  }

  predicate Legal(r: Run, m: Move, now: Time) {
    match m
    case Stay => true
    case Start(_, _) => r.state == RunState.Pending && r.availableAt <= now
    case Extend(token) => Live(r, token, now)
    case Finish(token, _) => Live(r, token, now)
    case Fault(token, _, _) => Live(r, token, now)
    case Expire => Overdue(r, now)
    case Abort => r.state == RunState.Pending || r.state == RunState.Running
  }

  // ---------------------------------------------------------------------------
  // The SET lists of the UPDATE statements
  // ---------------------------------------------------------------------------

  function Ended(r: Run, state: RunState, now: Time, error: Option<string>): Run {
    r.(state := state, workerId := None, leaseToken := None, leaseExpiresAt := None,
       startedAt := None, finishedAt := Some(now), lastError := error)
  }

  function Requeued(r: Run, availableAt: Time): Run {
    r.(state := RunState.Pending, availableAt := availableAt, workerId := None,
       leaseToken := None, leaseExpiresAt := None, startedAt := None, finishedAt := None,
       lastError := None)
  }

  function RowAfter(r: Run, m: Move, now: Time): Run {
    match m
    case Stay => r
    case Start(worker, token) =>
      r.(state := RunState.Running, attemptCount := r.attemptCount + 1,
         workerId := Some(worker), leaseToken := Some(token), startedAt := Some(now),
         leaseExpiresAt := Some(now + r.spec.leaseDuration))
    case Extend(_) => r.(leaseExpiresAt := Some(now + r.spec.leaseDuration))
    case Finish(_, Succeeded) => Ended(r, RunState.Completed, now, None)
    case Finish(_, Errored(e)) => Ended(r, RunState.Failed, now, Some(e))
    case Fault(_, e, retryable) =>
      if retryable && AttemptsRemain(r) then Requeued(r, now + r.spec.retryBackoff)
      else Ended(r, RunState.Failed, now, Some(e))
    case Expire =>
      if AttemptsRemain(r) then Requeued(r, now)
      else Ended(r, RunState.Failed, now, Some(ATTEMPTS_EXHAUSTED))
    case Abort => Ended(r, RunState.Cancelled, now, None)
  }

  function Opened(worker: string, token: Token, now: Time, leaseDuration: int): Attempt {
    Attempt(worker, token, now, now + leaseDuration, None, None, None)
  }

  function Closed(a: Attempt, now: Time, outcome: AttemptOutcome, error: Option<string>): Attempt {
    a.(finishedAt := Some(now), outcome := Some(outcome), error := error)
  }

  function AttemptAfter(a: Attempt, r: Run, m: Move, now: Time): Attempt {
    match m
    case Extend(_) => a.(leaseExpiresAt := now + r.spec.leaseDuration)
    case Finish(_, Succeeded) => Closed(a, now, AttemptOutcome.Completed, None)
    case Finish(_, Errored(e)) => Closed(a, now, AttemptOutcome.Failed, Some(e))
    case Fault(_, e, _) => Closed(a, now, AttemptOutcome.Failed, Some(e))
    case Expire => Closed(a, now, AttemptOutcome.Expired, Some(LEASE_EXPIRED))
    case Abort => Closed(a, now, AttemptOutcome.Cancelled, None)
    case Stay => a
    case Start(_, _) => a
  }

  function ApplyMove(t: Task, m: Move, now: Time): Task {
    match m
    case Stay => t
    case Start(worker, token) =>
      Task(RowAfter(t.run, m, now), t.log + [Opened(worker, token, now, t.run.spec.leaseDuration)])
    case _ =>
      if t.run.state == RunState.Running && |t.log| > 0 then
        Task(RowAfter(t.run, m, now),
             t.log[..|t.log| - 1] + [AttemptAfter(t.log[|t.log| - 1], t.run, m, now)])
      else
        Task(RowAfter(t.run, m, now), t.log)
  }

  // ---------------------------------------------------------------------------
  // The invariant of one task
  // ---------------------------------------------------------------------------

  /** An attempt after which the task may run again. */
  predicate Retriable(a: Attempt) {
    a.outcome == Some(AttemptOutcome.Failed) || a.outcome == Some(AttemptOutcome.Expired)
  }

  /** The earliest instant at which the attempt after `a` may start. */
  function ResumeAt(a: Attempt, retryBackoff: int): Time {
    match a.finishedAt
    case None => a.startedAt
    case Some(end) => if a.outcome == Some(AttemptOutcome.Failed) then end + retryBackoff else end
  }

  /** A completed or failed attempt ended inside its lease, an expired one after it. */
  predicate AttemptTimes(a: Attempt, clock: Time) {
    && a.startedAt <= clock
    && (a.finishedAt.Some? ==> a.startedAt <= a.finishedAt.value <= clock)
    && (a.outcome == Some(AttemptOutcome.Expired) && a.finishedAt.Some? ==>
          a.leaseExpiresAt <= a.finishedAt.value)
    && ((a.outcome == Some(AttemptOutcome.Completed) || a.outcome == Some(AttemptOutcome.Failed))
        && a.finishedAt.Some? ==>
          a.finishedAt.value < a.leaseExpiresAt)
  }

  function Last(t: Task): Attempt
    requires |t.log| > 0
  {
    t.log[|t.log| - 1]
  }

  /** The row agrees with the last entry of its attempt log. */
  predicate Agrees(t: Task) {
    match t.run.state
    case Pending =>
      |t.log| > 0 ==>
        Retriable(Last(t)) && ResumeAt(Last(t), t.run.spec.retryBackoff) <= t.run.availableAt
    case Running =>
      && |t.log| > 0
      && Last(t).outcome.None?
      && t.run.workerId == Some(Last(t).workerId)
      && t.run.leaseToken == Some(Last(t).leaseToken)
      && t.run.startedAt == Some(Last(t).startedAt)
      && t.run.leaseExpiresAt == Some(Last(t).leaseExpiresAt)
    case Completed =>
      && |t.log| > 0
      && Last(t).outcome == Some(AttemptOutcome.Completed)
      && Last(t).finishedAt == t.run.finishedAt
    case Failed =>
      && |t.log| > 0
      && Retriable(Last(t))
      && Last(t).finishedAt == t.run.finishedAt
      && (Last(t).outcome == Some(AttemptOutcome.Failed) ==> t.run.lastError == Last(t).error)
      && (Last(t).outcome == Some(AttemptOutcome.Expired) ==>
            !AttemptsRemain(t.run) && t.run.lastError == Some(ATTEMPTS_EXHAUSTED))
    case Cancelled =>
      |t.log| > 0 ==>
        || Retriable(Last(t))
        || (Last(t).outcome == Some(AttemptOutcome.Cancelled) && Last(t).finishedAt == t.run.finishedAt)
  }

  /** `b` may be the attempt right after `a`. */
  predicate Succeeds(a: Attempt, b: Attempt, retryBackoff: int) {
    Retriable(a) && ResumeAt(a, retryBackoff) <= b.startedAt
  }

  predicate LogOk(log: seq<Attempt>, retryBackoff: int, clock: Time) {
    && (forall i :: 0 <= i < |log| ==> AttemptCheck(log[i]) && AttemptTimes(log[i], clock))
    && (forall i :: 1 <= i < |log| ==> Succeeds(log[i - 1], log[i], retryBackoff))
  }

  predicate TaskOk(t: Task, clock: Time) {
    && RowCheck(t.run)
    && |t.log| == t.run.attemptCount
    && LogOk(t.log, t.run.spec.retryBackoff, clock)
    && Agrees(t)
    && (t.run.leaseExpiresAt.Some? ==>
          t.run.leaseExpiresAt.value <= clock + t.run.spec.leaseDuration)
  }

  lemma MoveKeepsRowCheck(t: Task, m: Move, clock: Time, now: Time)
    requires TaskOk(t, clock) && clock <= now && Legal(t.run, m, now)
    ensures RowCheck(RowAfter(t.run, m, now))
  {
    if t.run.state == RunState.Running {
      assert AttemptTimes(Last(t), clock);
    }
  }

  lemma MoveKeepsAgreement(t: Task, m: Move, clock: Time, now: Time)
    requires TaskOk(t, clock) && clock <= now && Legal(t.run, m, now)
    ensures Agrees(ApplyMove(t, m, now))
  {
  }

  /** A log stays well formed when a well-formed entry is put at its end. */
  lemma LogExtends(log: seq<Attempt>, last: Attempt, retryBackoff: int, clock: Time, now: Time)
    requires LogOk(log, retryBackoff, clock) && clock <= now
    requires AttemptCheck(last) && AttemptTimes(last, now)
    requires |log| > 0 ==> Succeeds(log[|log| - 1], last, retryBackoff)
    ensures LogOk(log + [last], retryBackoff, now)
  {
  }

  /** The open attempt of a running task is still well formed after any move on it. */
  lemma MoveKeepsAttempt(t: Task, m: Move, clock: Time, now: Time)
    requires TaskOk(t, clock) && clock <= now && Legal(t.run, m, now)
    requires t.run.state == RunState.Running && !m.Stay?
    ensures AttemptCheck(AttemptAfter(Last(t), t.run, m, now))
    ensures AttemptTimes(AttemptAfter(Last(t), t.run, m, now), now)
  {
    assert AttemptCheck(Last(t)) && AttemptTimes(Last(t), clock);
  }

  lemma MoveKeepsLog(t: Task, m: Move, clock: Time, now: Time)
    requires TaskOk(t, clock) && clock <= now && Legal(t.run, m, now)
    ensures LogOk(ApplyMove(t, m, now).log, t.run.spec.retryBackoff, now)
  {
    var n := |t.log|;
    if m.Start? {
      LogExtends(t.log, Opened(m.worker, m.token, now, t.run.spec.leaseDuration),
                 t.run.spec.retryBackoff, clock, now);
    } else if t.run.state == RunState.Running && !m.Stay? {
      MoveKeepsAttempt(t, m, clock, now);
      assert n > 1 ==> Succeeds(t.log[n - 1 - 1], t.log[n - 1], t.run.spec.retryBackoff);
      LogExtends(t.log[..n - 1], AttemptAfter(Last(t), t.run, m, now),
                 t.run.spec.retryBackoff, clock, now);
    }
  }

  lemma MoveKeepsTaskOk(t: Task, m: Move, clock: Time, now: Time)
    requires TaskOk(t, clock) && clock <= now && Legal(t.run, m, now)
    ensures TaskOk(ApplyMove(t, m, now), now)
  {
    MoveKeepsRowCheck(t, m, clock, now);
    MoveKeepsAgreement(t, m, clock, now);
    MoveKeepsLog(t, m, clock, now);
  }

  // ---------------------------------------------------------------------------
  // The transition budget
  // ---------------------------------------------------------------------------

  /** Upper bound on the state transitions a task has left. */
  function Budget(r: Run): int {
    if Terminal(r) then 0
    else 2 * (r.spec.maxAttempts - r.attemptCount) + (if r.state == RunState.Running then 1 else 0)
  }

  /** A move that changes the state column: every move but staying and renewing. */
  predicate Transition(m: Move) {
    !m.Stay? && !m.Extend?
  }

  lemma MoveSpendsBudget(t: Task, m: Move, clock: Time, now: Time)
    requires TaskOk(t, clock) && Legal(t.run, m, now)
    ensures 0 <= Budget(ApplyMove(t, m, now).run) <= Budget(t.run) <= 2 * t.run.spec.maxAttempts
    ensures Transition(m) <==> Budget(ApplyMove(t, m, now).run) < Budget(t.run)
    ensures Transition(m) <==> ApplyMove(t, m, now).run.state != t.run.state
  {
  }

  // ---------------------------------------------------------------------------
  // What never changes back
  // ---------------------------------------------------------------------------

  predicate AttemptEvolves(a: Attempt, b: Attempt, clock: Time) {
    && b.workerId == a.workerId && b.leaseToken == a.leaseToken && b.startedAt == a.startedAt
    && (a.outcome.Some? ==> b == a)
    && a.leaseExpiresAt <= b.leaseExpiresAt
    && (a.outcome.None? && a.leaseExpiresAt <= clock ==>
          && b.leaseExpiresAt == a.leaseExpiresAt
          && (b.outcome.Some? ==>
                || b.outcome == Some(AttemptOutcome.Expired)
                || b.outcome == Some(AttemptOutcome.Cancelled)))
  }

  /**
   `u` is what `t` may have become: seen at `clock`, when exactly `issued` tokens had
   been generated.
   */
  predicate TaskEvolves(t: Task, u: Task, clock: Time, issued: set<Token>) {
    && u.run.spec == t.run.spec
    && |t.log| <= |u.log|
    && Budget(u.run) <= Budget(t.run)
    && (Terminal(t.run) ==> u == t)
    && (forall i :: 0 <= i < |t.log| ==> AttemptEvolves(t.log[i], u.log[i], clock))
    && (forall i :: |t.log| <= i < |u.log| ==> u.log[i].leaseToken !in issued)
  }

  lemma MoveEvolves(t: Task, m: Move, clock: Time, now: Time, issued: set<Token>)
    requires TaskOk(t, clock) && clock <= now && Legal(t.run, m, now)
    requires m.Start? ==> m.token !in issued
    ensures TaskEvolves(t, ApplyMove(t, m, now), clock, issued)
  {
    MoveSpendsBudget(t, m, clock, now);
    var u := ApplyMove(t, m, now);
    forall i | 0 <= i < |t.log|
      ensures AttemptEvolves(t.log[i], u.log[i], clock)
    {
      if i < |t.log| - 1 {
        assert Succeeds(t.log[i + 1 - 1], t.log[i + 1], t.run.spec.retryBackoff);
        assert u.log[i] == t.log[i];
      }
    }
  }

  lemma EvolvesTransitive(t: Task, u: Task, v: Task, c1: Time, c2: Time, s1: set<Token>, s2: set<Token>)
    requires TaskEvolves(t, u, c1, s1) && TaskEvolves(u, v, c2, s2)
    requires c1 <= c2 && s1 <= s2
    ensures TaskEvolves(t, v, c1, s1)
  {
    forall i | 0 <= i < |t.log|
      ensures AttemptEvolves(t.log[i], v.log[i], c1)
    {
      assert AttemptEvolves(t.log[i], u.log[i], c1) && AttemptEvolves(u.log[i], v.log[i], c2);
    }
    forall i | |t.log| <= i < |v.log|
      ensures v.log[i].leaseToken !in s1
    {
      if i < |u.log| {
        assert AttemptEvolves(u.log[i], v.log[i], c2);
      }
    }
  }
}
