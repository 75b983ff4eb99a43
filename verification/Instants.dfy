/**
 Two instants per transaction.  FINALIZE and FAIL write the row and RECORD_ATTEMPT then
 writes the attempt, each with its own `clock_timestamp()`; the parts of RECOVER and
 CANCEL read it one after the other as well.  Elsewhere one instant stands for both;
 here the histories of one task are followed with two.
 */
module Instants {
  import opened Rows
  import opened Lease
  import opened Tables

  /** A move that writes the row at `row` and the attempt at `attempt`. */
  datatype TimedMove = TimedMove(move: Move, row: Time, attempt: Time)

  /** No transaction on the row begins to write before this. */
  function Committed(m: TimedMove): Time {
    if m.row < m.attempt then m.attempt else m.row
  }

  /** Reports write the row first; a claim and a renewal copy the row's instant. */
  predicate InOrder(m: TimedMove) {
    && (m.move.Finish? || m.move.Fault? ==> m.row <= m.attempt)
    && (m.move.Stay? || m.move.Start? || m.move.Extend? ==> m.row == m.attempt)
  }

  function Step(t: Task, m: TimedMove): Task {
    if t.run.state == RunState.Running && |t.log| > 0 && !m.move.Start? then
      Task(RowAfter(t.run, m.move, m.row),
           t.log[..|t.log| - 1] + [AttemptAfter(Last(t), t.run, m.move, m.attempt)])
    else
      ApplyMove(t, m.move, m.row)
  }

  /** With both instants equal this is the move of the one-instant model. */
  lemma OneInstant(t: Task, m: Move, now: Time)
    ensures Step(t, TimedMove(m, now, now)) == ApplyMove(t, m, now)
  {
    if t.run.state == RunState.Running && |t.log| > 0 && m.Stay? {
      assert t.log == t.log[..|t.log| - 1] + [Last(t)];
    }
  }

  ghost predicate StepsTo(t: Task, m: TimedMove, u: Task, clock: Time) {
    Legal(t.run, m.move, m.row) && InOrder(m) && clock <= m.row && clock <= m.attempt && u == Step(t, m)
  }

  function ClockAt(moves: seq<TimedMove>, start: Time, i: nat): Time
    requires i <= |moves|
  {
    if i == 0 then start else Committed(moves[i - 1])
  }

  /** The history of one task from its INSERT at `start`, transaction after transaction. */
  ghost predicate IsHistory(tasks: seq<Task>, moves: seq<TimedMove>, start: Time) {
    && |tasks| == |moves| + 1
    && SpecCheck(tasks[0].run.spec)
    && tasks[0] == Task(Newborn(tasks[0].run.spec, tasks[0].run.availableAt), [])
    && forall i :: 0 <= i < |moves| ==> StepsTo(tasks[i], moves[i], tasks[i + 1], ClockAt(moves, start, i))
  }

  // ---------------------------------------------------------------------------
  // The order of instants
  // ---------------------------------------------------------------------------

  /** The attempt `b` starts after `a` was closed, and after its deadline if it expired. */
  predicate Follows(a: Attempt, b: Attempt) {
    && Retriable(a) && a.finishedAt.Some? && a.finishedAt.value <= b.startedAt
    && (a.outcome == Some(AttemptOutcome.Expired) ==> a.leaseExpiresAt <= b.startedAt)
  }

  predicate LastAgrees(t: Task, clock: Time)
    requires |t.log| > 0
  {
    var last := Last(t);
    match t.run.state
    case Running => last.outcome.None? && t.run.leaseExpiresAt == Some(last.leaseExpiresAt)
    case Pending =>
      && Retriable(last) && last.finishedAt.Some?
      && (last.outcome == Some(AttemptOutcome.Expired) ==> last.leaseExpiresAt <= clock)
    case _ => ReportedInTime(t.run, last)
  }

  /**
   A reported end: the row was written inside the lease, the attempt perhaps later and
   perhaps after the deadline.
   */
  predicate ReportedInTime(r: Run, a: Attempt) {
    || a.outcome == Some(AttemptOutcome.Completed)
    || (r.state == RunState.Failed && a.outcome == Some(AttemptOutcome.Failed))
    ==> && r.finishedAt.Some? && a.finishedAt.Some?
        && r.finishedAt.value <= a.finishedAt.value && r.finishedAt.value < a.leaseExpiresAt
  }

  predicate PastAttempt(a: Attempt, clock: Time) {
    a.startedAt <= clock && (a.finishedAt.Some? ==> a.startedAt <= a.finishedAt.value <= clock)
  }

  ghost predicate Ordered(t: Task, clock: Time) {
    && (t.run.state == RunState.Running ==> |t.log| > 0)
    && (|t.log| > 0 ==> LastAgrees(t, clock))
    && (forall i :: 0 <= i < |t.log| ==> PastAttempt(t.log[i], clock))
    && (forall i :: 1 <= i < |t.log| ==> Follows(t.log[i - 1], t.log[i]))
  }

  lemma StepKeepsLast(t: Task, m: TimedMove, u: Task, clock: Time)
    requires Ordered(t, clock) && StepsTo(t, m, u, clock)
    ensures u.run.state == RunState.Running ==> |u.log| > 0
    ensures |u.log| > 0 ==> LastAgrees(u, Committed(m))
    ensures u.run.spec == t.run.spec
  {
    hide Follows, PastAttempt;
  }

  lemma StepKeepsPast(t: Task, m: TimedMove, u: Task, clock: Time)
    requires Ordered(t, clock) && StepsTo(t, m, u, clock)
    ensures forall i :: 0 <= i < |u.log| ==> PastAttempt(u.log[i], Committed(m))
  {
    hide Follows, LastAgrees;
    forall i | 0 <= i < |u.log|
      ensures PastAttempt(u.log[i], Committed(m))
    {
      assert i < |t.log| ==> PastAttempt(t.log[i], clock);
    }
  }

  lemma StepKeepsOrder(t: Task, m: TimedMove, u: Task, clock: Time)
    requires Ordered(t, clock) && StepsTo(t, m, u, clock)
    ensures Ordered(u, Committed(m)) && u.run.spec == t.run.spec
  {
    StepKeepsLast(t, m, u, clock);
    StepKeepsPast(t, m, u, clock);
    hide PastAttempt, ReportedInTime;
    forall i | 1 <= i < |u.log|
      ensures Follows(u.log[i - 1], u.log[i])
    {
      if i < |t.log| {
        assert Follows(t.log[i - 1], t.log[i]);
      }
    }
  }

  /** With two instants the attempts of a task are still ordered and disjoint. */
  lemma {:induction false} HistoryIsOrdered(tasks: seq<Task>, moves: seq<TimedMove>, start: Time, k: nat)
    requires IsHistory(tasks, moves, start) && k < |tasks|
    ensures Ordered(tasks[k], ClockAt(moves, start, k)) && tasks[k].run.spec == tasks[0].run.spec
  {
    if k > 0 {
      HistoryIsOrdered(tasks, moves, start, k - 1);
      assert StepsTo(tasks[k - 1], moves[k - 1], tasks[k], ClockAt(moves, start, k - 1));
      StepKeepsOrder(tasks[k - 1], moves[k - 1], tasks[k], ClockAt(moves, start, k - 1));
    }
  }

  // ---------------------------------------------------------------------------
  // The backoff
  // ---------------------------------------------------------------------------

  /**
   A retried failure is available again from the instant its row was written plus the
   backoff, until it is claimed.
   */
  lemma {:induction false} BackoffIsKept(tasks: seq<Task>, moves: seq<TimedMove>, start: Time, k: nat, n: nat)
    requires IsHistory(tasks, moves, start) && k < n < |tasks|
    requires moves[k].move.Fault? && forall i :: k < i <= n ==> tasks[i].run.state == RunState.Pending
    ensures tasks[n].run.availableAt == moves[k].row + tasks[0].run.spec.retryBackoff
    decreases n
  {
    assert StepsTo(tasks[n - 1], moves[n - 1], tasks[n], ClockAt(moves, start, n - 1));
    if n == k + 1 {
      HistoryIsOrdered(tasks, moves, start, k);
    } else {
      BackoffIsKept(tasks, moves, start, k, n - 1);
    }
  }

  /**
   The claim after a retried failure comes at least the backoff after the row of the
   failure was written, and not before its attempt was closed.
   */
  lemma RetryWaits(tasks: seq<Task>, moves: seq<TimedMove>, start: Time, k: nat, n: nat)
    requires IsHistory(tasks, moves, start) && k < n < |moves|
    requires moves[k].move.Fault? && forall i :: k < i <= n ==> tasks[i].run.state == RunState.Pending
    requires moves[n].move.Start?
    ensures moves[k].row + tasks[0].run.spec.retryBackoff <= moves[n].row
    ensures |tasks[k].log| > 0 && |tasks[n].log| == |tasks[k].log|
    ensures Last(tasks[n]).finishedAt.Some? && Last(tasks[n]).finishedAt.value == moves[k].attempt <= moves[n].row
    ensures Last(tasks[n + 1]).startedAt == moves[n].row
  {
    BackoffIsKept(tasks, moves, start, k, n);
    assert StepsTo(tasks[n], moves[n], tasks[n + 1], ClockAt(moves, start, n));
    HistoryIsOrdered(tasks, moves, start, k);
    LogRests(tasks, moves, start, k + 1, n);
    assert StepsTo(tasks[k], moves[k], tasks[k + 1], ClockAt(moves, start, k));
    HistoryIsOrdered(tasks, moves, start, n);
  }

  /** A pending task writes nothing to its log. */
  lemma {:induction false} LogRests(tasks: seq<Task>, moves: seq<TimedMove>, start: Time, a: nat, b: nat)
    requires IsHistory(tasks, moves, start) && a <= b < |tasks|
    requires forall i :: a <= i <= b ==> tasks[i].run.state == RunState.Pending
    ensures tasks[b].log == tasks[a].log
    decreases b
  {
    if a < b {
      LogRests(tasks, moves, start, a, b - 1);
      assert StepsTo(tasks[b - 1], moves[b - 1], tasks[b], ClockAt(moves, start, b - 1));
    }
  }
}
