/**
 The store as the code runs it: tables updated in place, statement by statement, with
 the branches on affected-row counts.  Each method is proved to perform its step of
 `Protocol`; what the steps guarantee over whole runs is proved in `Runs`,
 `ReadCommitted` and `Schedule`.

 Every contract also says that its step was enabled, so that by `RunGrows` any history of
 calls is a run; that a snapshot parameter is a past state is what the caller owes.

 Inputs the code takes from PostgreSQL are parameters: the two clocks, the rows other
 transactions hold locked, fresh identifiers, and the snapshot of a statement.
 */
module Store {
  import opened Rows
  import opened Lease
  import opened Tables
  import opened Protocol
  import opened Runs
  import opened ReadCommitted
  import opened Ordering
  import opened Statements
  import opened Drain
  import opened Columns

  class Store {
    var runs: map<RunId, Run>
    var attempts: map<Key, Attempt>
    var jobs: map<JobId, Job>
    var clock: Time
    ghost var issued: set<Token>
    ghost var created: set<RunId>
    ghost var pruned: set<RunId>
    ghost var jobsCreated: set<JobId>
    ghost var minted: multiset<Occurrence>

    ghost function State(): Db
      reads this
    {
      Db(runs, attempts, jobs, clock, issued, created, pruned, jobsCreated, minted)
    }

    ghost predicate Valid()
      reads this
    {
      Inv(State())
    }

    constructor (start: Time)
      ensures Valid() && State() == Empty(start)
    {
      runs, attempts, jobs, clock := map[], map[], map[], start;
      issued, created, pruned, jobsCreated, minted := {}, {}, {}, {}, multiset{};
      new;
      EmptyInv(start);
    }

    // -------------------------------------------------------------------------
    // finalize_run, fail_run, renew_lease
    // -------------------------------------------------------------------------

    /**
     RECORD_ATTEMPT: afterwards no open attempt has the token; the rows it closed are the
     only ones that changed, and their number is returned.
     */
    method RecordAttempt(token: Token, outcome: AttemptOutcome, error: Option<string>, now: Time)
      returns (affected: nat)
      modifies this`attempts
      ensures ClosedFor(old(attempts), attempts, token, now, outcome, error)
      ensures OpenFor(attempts, token) == {} && affected == |ChangedKeys(old(attempts), attempts)|
    {
      var hit := OpenFor(attempts, token);
      CloseExactly(attempts, CloseAttempts(attempts, hit, now, outcome, error), token, now, outcome, error);
      attempts := CloseAttempts(attempts, hit, now, outcome, error);
      affected := |hit|;
    }

    /** RENEW_ATTEMPT: the open attempts with the token stay open, until the new deadline. */
    method RenewAttempt(token: Token, until: Time) returns (affected: nat)
      modifies this`attempts
      ensures ExtendedFor(old(attempts), attempts, token, until)
      ensures OpenFor(attempts, token) == OpenFor(old(attempts), token)
      ensures affected == |OpenFor(attempts, token)|
    {
      var hit := OpenFor(attempts, token);
      ExtendExactly(attempts, ExtendAttempts(attempts, hit, until), token, until);
      attempts := ExtendAttempts(attempts, hit, until);
      affected := |hit|;
    }

    /** `seen` is what the IS_TERMINAL query of a refused call reads. */
    method FinalizeRun(id: RunId, token: Token, outcome: Outcome, seen: Db, now: Time)
      returns (r: Result<FinalizeOutcome>)
      requires clock <= now
      modifies this
      ensures r.Err? ==> State() == Advance(old(State()), now)
      ensures old(Valid()) ==>
        && r.Ok?
        && (r.value.Applied? <==>
            && id in old(runs) && old(runs)[id].state == RunState.Running
            && old(runs)[id].leaseToken == Some(token)
            && old(runs)[id].leaseExpiresAt.Some? && now < old(runs)[id].leaseExpiresAt.value)
        && (r.value.Applied? ==>
            && id in runs && runs[id].finishedAt == Some(now)
            && runs[id].state == if outcome.Succeeded? then RunState.Completed else RunState.Failed)
        && (!r.value.Applied? ==> runs == old(runs) && attempts == old(attempts))
        && (!r.value.Applied? ==>
              (r.value.AlreadyTerminal? <==>
               id in seen.runs && seen.runs[id].state != RunState.Pending && seen.runs[id].state != RunState.Running))
      ensures old(Valid()) ==>
        && r == Ok(FinalizeAnswer(old(State()), seen, id, token, now))
        && Enabled(old(State()), Event(Finalize(id, token, outcome), now, now))
        && State() == Next(old(State()), Event(Finalize(id, token, outcome), now, now))
        && Valid()
    {
      hide Inv, Next, CloseAttempts, OpenFor, RowAfter, ClosedFor, ChangedKeys;
      ghost var before := State();
      ghost var e := Event(Finalize(id, token, outcome), now, now);
      var savedRuns, savedAttempts := runs, attempts;
      clock := now;
      if !(id in runs && Live(runs[id], token, now)) {
        RefusedStep(before, e, id, token);
        return Ok(if TerminalIn(seen, id) then FinalizeOutcome.AlreadyTerminal else FinalizeOutcome.Fenced);
      }
      runs := runs[id := RowAfter(runs[id], Finish(token, outcome), now)];
      var affected := RecordAttempt(token, AttemptOutcomeOf(outcome), ErrorOf(outcome), now);
      CloseExactly(before.attempts, attempts, token, now, AttemptOutcomeOf(outcome), ErrorOf(outcome));
      if Inv(before) {
        FinalizeStep(before, id, token, outcome, now);
        FinalizeColumns(before, id, token, outcome, now);
      }
      if affected != 1 {
        runs, attempts := savedRuns, savedAttempts;
        return Err(Invariant("finalized task did not have one live attempt"));
      }
      r := Ok(FinalizeOutcome.Applied);
    }

    method FailRun(id: RunId, token: Token, error: string, retryable: bool, seen: Db, now: Time)
      returns (r: Result<FailureOutcome>)
      requires clock <= now
      modifies this
      ensures r.Err? ==> State() == Advance(old(State()), now)
      ensures old(Valid()) ==>
        && r.Ok?
        && (r.value.Retried? || r.value.Failed? <==>
            && id in old(runs) && old(runs)[id].state == RunState.Running
            && old(runs)[id].leaseToken == Some(token)
            && old(runs)[id].leaseExpiresAt.Some? && now < old(runs)[id].leaseExpiresAt.value)
        && (r.value.Retried? ==>
            && retryable && old(runs)[id].attemptCount < old(runs)[id].spec.maxAttempts
            && id in runs && runs[id].state == RunState.Pending
            && runs[id].availableAt == r.value.availableAt == now + old(runs)[id].spec.retryBackoff)
        && (r.value.Failed? ==>
            && !(retryable && old(runs)[id].attemptCount < old(runs)[id].spec.maxAttempts)
            && id in runs && runs[id].state == RunState.Failed && runs[id].lastError == Some(error))
        && (r.value.Fenced? || r.value.AlreadyTerminal? ==> runs == old(runs) && attempts == old(attempts))
        && (r.value.Fenced? || r.value.AlreadyTerminal? ==>
              (r.value.AlreadyTerminal? <==>
               id in seen.runs && seen.runs[id].state != RunState.Pending && seen.runs[id].state != RunState.Running))
      ensures old(Valid()) ==>
        && r == Ok(FailAnswer(old(State()), seen, id, token, retryable, now))
        && Enabled(old(State()), Event(Fail(id, token, error, retryable), now, now))
        && State() == Next(old(State()), Event(Fail(id, token, error, retryable), now, now))
        && Valid()
    {
      hide Inv, Next, CloseAttempts, OpenFor, RowAfter, ClosedFor, ChangedKeys;
      ghost var before := State();
      ghost var e := Event(Fail(id, token, error, retryable), now, now);
      var savedRuns, savedAttempts := runs, attempts;
      clock := now;
      if !(id in runs && Live(runs[id], token, now)) {
        RefusedStep(before, e, id, token);
        return Ok(if TerminalIn(seen, id) then FailureOutcome.AlreadyTerminal else FailureOutcome.Fenced);
      }
      var row := RowAfter(runs[id], Fault(token, error, retryable), now);
      runs := runs[id := row];
      var affected := RecordAttempt(token, AttemptOutcome.Failed, Some(error), now);
      CloseExactly(before.attempts, attempts, token, now, AttemptOutcome.Failed, Some(error));
      if Inv(before) {
        FailStep(before, id, token, error, retryable, now);
        FaultState(before.runs[id], token, error, retryable, now);
        FailColumns(before, id, token, error, retryable, now);
      }
      if affected != 1 {
        runs, attempts := savedRuns, savedAttempts;
        return Err(Invariant("failed task did not have one live attempt"));
      }
      match row.state {
        case Pending => r := Ok(Retried(row.availableAt));
        case Failed => r := Ok(FailureOutcome.Failed);
        case _ =>
          runs, attempts := savedRuns, savedAttempts;
          r := Err(Invariant("failure produced invalid state"));
      }
    }

    method RenewLease(id: RunId, token: Token, now: Time) returns (r: Result<RenewalOutcome>)
      requires clock <= now
      modifies this
      ensures r.Err? ==> State() == Advance(old(State()), now)
      ensures old(Valid()) ==>
        && r.Ok?
        && (r.value.Renewed? <==>
            && id in old(runs) && old(runs)[id].state == RunState.Running
            && old(runs)[id].leaseToken == Some(token)
            && old(runs)[id].leaseExpiresAt.Some? && now < old(runs)[id].leaseExpiresAt.value)
        && (r.value.Renewed? ==>
            && id in runs
            && var last := Key(id, runs[id].attemptCount);
            && runs[id].state == RunState.Running && runs[id].leaseToken == Some(token)
            && runs[id].leaseExpiresAt == Some(r.value.leaseExpiresAt)
            && last in attempts && attempts[last].outcome.None?
            && attempts[last].leaseExpiresAt == r.value.leaseExpiresAt == now + runs[id].spec.leaseDuration)
        && (r.value.Fenced? ==> runs == old(runs) && attempts == old(attempts))
      ensures old(Valid()) ==>
        && r == Ok(RenewAnswer(old(State()), id, token, now))
        && Enabled(old(State()), Event(Renew(id, token), now, now))
        && State() == Next(old(State()), Event(Renew(id, token), now, now))
        && Valid()
    {
      hide Inv, Next, ExtendAttempts, OpenFor, RowAfter, ExtendedFor;
      ghost var before := State();
      ghost var e := Event(Renew(id, token), now, now);
      var savedRuns, savedAttempts := runs, attempts;
      clock := now;
      if !(id in runs && Live(runs[id], token, now)) {
        RefusedStep(before, e, id, token);
        return Ok(RenewalOutcome.Fenced);
      }
      var until := now + runs[id].spec.leaseDuration;
      runs := runs[id := runs[id].(leaseExpiresAt := Some(until))];
      var affected := RenewAttempt(token, until);
      ExtendExactly(before.attempts, attempts, token, until);
      if Inv(before) {
        RenewStep(before, id, token, now);
        RenewColumns(before, id, token, now);
        RenewedLease(before, id, token, now);
      }
      if affected != 1 {
        runs, attempts := savedRuns, savedAttempts;
        return Err(Invariant("renewed task did not have one live attempt"));
      }
      r := Ok(Renewed(until));
    }

    // -------------------------------------------------------------------------
    // claim_batch
    // -------------------------------------------------------------------------

    /**
     Claims the best `limit` unlocked eligible tasks, by priority from high to low, then
     availability, then id, and returns the claims ordered by (scheduled_for, id), each with
     the token, number and deadline its row now has.  `tokens` holds what `gen_random_uuid()` gives each row.  The
     conversion of the returned rows has two error branches; neither is ever taken.
     */
    method ClaimBatch(worker: string, names: set<string>, limit: nat, locked: set<RunId>,
                      tokens: map<RunId, Token>, txNow: Time, now: Time)
      returns (r: Result<seq<ClaimedRun>>, ghost picked: map<RunId, Token>)
      requires Valid() && clock <= now && txNow <= now
      requires FreshTokens(tokens, runs, issued)
      modifies this
      ensures Valid()
      ensures Enabled(old(State()), Event(Claim(worker, picked), txNow, now))
      ensures State() == Next(old(State()), Event(Claim(worker, picked), txNow, now))
      ensures IsBest(ClaimRanks(old(runs), names, locked, txNow), limit, picked.Keys)
      ensures forall id :: id in picked ==> picked[id] == tokens[id]
      ensures r.Ok? && |r.value| == |picked|
      ensures Dispatchable(r.value, old(runs), picked, names, now)
      ensures TakesBest(old(runs), names, locked, txNow, limit, picked.Keys)
    {
      hide Inv, Next, Enabled, StartedRuns, StartedAttempts, IsBest, ClaimRanks, FreshTokens,
        RowsFrom, Dispatchable, ConvertAll, TakesBest;
      ghost var before := State();
      TokensCover(tokens, runs, issued);
      var picks := PickClaims(runs, names, limit, locked, tokens, txNow);
      picked := picks;
      ClaimReady(before, worker, names, locked, picks, tokens, txNow, now);
      var rows := CollectClaims(runs, worker, picks, now);
      ClaimsConvert(rows, runs, picks, names, now);
      attempts := attempts + StartedAttempts(runs, worker, picks, now);
      runs := StartedRuns(runs, worker, picks, now);
      clock := now;
      issued := issued + picks.Values;
      r := ConvertAll(rows);
    }

    // -------------------------------------------------------------------------
    // recover_expired
    // -------------------------------------------------------------------------

    /**
     Recovers the first `limit` unlocked overdue tasks by (lease_expires_at, id) whose
     open attempt the snapshot shows, and counts where they went.
     */
    method RecoverExpired(limit: nat, locked: set<RunId>, snap: Db, now: Time)
      returns (r: Result<RecoverySummary>, ghost batch: set<RunId>, ghost moved: set<RunId>)
      requires Valid() && clock <= now
      modifies this
      ensures Valid()
      ensures Enabled(old(State()), Event(Recover(batch, snap), now, now))
      ensures State() == Next(old(State()), Event(Recover(batch, snap), now, now))
      ensures TakesOverdue(old(runs), locked, now, limit, batch)
      ensures Recovers(old(runs), snap, batch, moved) && RecoveredAs(old(runs), runs, moved, now)
      ensures r.Ok? && r.value.requeued + r.value.failed == |moved|
      ensures r.value.requeued == |InState(runs, moved, RunState.Pending)|
      ensures r.value.failed == |InState(runs, moved, RunState.Failed)|
      ensures RunningIds(runs) == RunningIds(old(runs)) - moved && moved <= RunningIds(old(runs))
    {
      hide Inv, Next, RecoveredRuns, CloseAttempts, HitKeys, Guard, IsBest, TakesOverdue, Recovers, RecoveredAs;
      ghost var before := State();
      var ranks := RecoverRanks(runs, locked, now);
      var best := SelectBest(ranks, limit);
      var taken := Elements(best);
      var hits := HitKeys(runs, attempts, snap.attempts, taken);
      batch := taken;
      RecoverTakesFirst(runs, locked, now, limit, taken);
      RecoverStep(before, taken, snap, now);
      RecoverMoves(before, taken, snap, best, now);
      RecoverRunColumns(before, taken, snap, now);
      RecoverMovesColumns(before, taken, snap, now);
      attempts := CloseAttempts(attempts, hits, now, AttemptOutcome.Expired, Some(LEASE_EXPIRED));
      runs := RecoveredRuns(runs, taken, hits, now);
      clock := now;
      moved := Moves(before, Event(Recover(batch, snap), now, now)).Keys;
      var rows := ReturnedStates(runs, best, hits);
      r := Summarize(rows);
    }

    // -------------------------------------------------------------------------
    // cancel, prune_terminal, enqueue
    // -------------------------------------------------------------------------

    /** `snap` is the snapshot of CANCEL, `seen` the state its EXISTS query reads. */
    method CancelTask(id: RunId, snap: Db, seen: Db, now: Time) returns (r: CancelOutcome)
      requires Valid() && clock <= now
      modifies this
      ensures Valid()
      ensures Enabled(old(State()), Event(Cancel(id, snap), now, now))
      ensures State() == Next(old(State()), Event(Cancel(id, snap), now, now))
      ensures r == CancelAnswer(old(State()), snap, seen, id)
      ensures r == CancelOutcome.Cancelled <==>
        && id in old(runs) && id in snap.runs
        && (|| old(runs)[id].state == RunState.Pending
            || (&& old(runs)[id].state == RunState.Running
                && Key(id, old(runs)[id].attemptCount) in snap.attempts
                && snap.attempts[Key(id, old(runs)[id].attemptCount)].outcome.None?
                && Some(snap.attempts[Key(id, old(runs)[id].attemptCount)].leaseToken) == old(runs)[id].leaseToken))
      ensures r == CancelOutcome.Cancelled ==>
        runs == old(runs)[id := old(runs)[id].(
          state := RunState.Cancelled, workerId := None, leaseToken := None, leaseExpiresAt := None,
          startedAt := None, finishedAt := Some(now), lastError := None)]
      ensures r != CancelOutcome.Cancelled ==> runs == old(runs) && attempts == old(attempts)
    {
      hide Inv, Next, CloseAttempts, HitKeys, RowAfter, AttemptRecorded;
      ghost var before := State();
      ghost var e := Event(Cancel(id, snap), now, now);
      StepKeeps(before, e);
      CancelColumns(before, id, snap, now);
      var changed := false;
      if id in snap.runs && id in runs {
        var target := runs[id];
        if target.state == RunState.Running {
          CancelRunningStep(before, id, snap, now);
          var hits := HitKeys(runs, attempts, snap.attempts, {id});
          attempts := CloseAttempts(attempts, hits, now, AttemptOutcome.Cancelled, None);
          changed := Guard(hits, id);
        } else if target.state == RunState.Pending {
          CancelPendingStep(before, id, snap, now);
          changed := true;
        } else {
          CancelStep(before, e, id, snap);
        }
        if changed {
          runs := runs[id := RowAfter(target, Abort, now)];
        }
      } else {
        CancelStep(before, e, id, snap);
      }
      clock := now;
      r := if changed then CancelOutcome.Cancelled
           else if id in seen.runs then CancelOutcome.AlreadyTerminal else NotFound;
    }

    /** Deletes the first `limit` unlocked terminal tasks that finished before `before`. */
    method PruneTerminal(before: Time, limit: nat, locked: set<RunId>, now: Time)
      returns (deleted: nat, ghost doomed: set<RunId>)
      requires Valid() && clock <= now
      modifies this
      ensures Valid()
      ensures forall x :: x in doomed ==>
        && x in old(runs) && x !in locked
        && old(runs)[x].state != RunState.Pending && old(runs)[x].state != RunState.Running
        && old(runs)[x].finishedAt.Some? && old(runs)[x].finishedAt.value < before
      ensures forall x, y ::
        && x in doomed && y in old(runs) && y !in doomed && y !in locked
        && old(runs)[y].state != RunState.Pending && old(runs)[y].state != RunState.Running
        && old(runs)[y].finishedAt.Some? && old(runs)[y].finishedAt.value < before
        ==>
        || old(runs)[x].finishedAt.value < old(runs)[y].finishedAt.value
        || (old(runs)[x].finishedAt == old(runs)[y].finishedAt && x < y)
      ensures var n := |set y | y in old(runs) && y !in locked && old(runs)[y].state != RunState.Pending
                                && old(runs)[y].state != RunState.Running && old(runs)[y].finishedAt.Some?
                                && old(runs)[y].finishedAt.value < before|;
        deleted == if limit < n then limit else n
      ensures Enabled(old(State()), Event(Prune(doomed, before), now, now))
      ensures State() == Next(old(State()), Event(Prune(doomed, before), now, now))
      ensures deleted == |doomed|
      ensures runs.Keys == old(runs).Keys - doomed
      ensures forall k :: k in old(attempts) ==> (k !in attempts <==> k.run in doomed)
    {
      hide Inv, Next, IsBest, Prunable, PruneRanks, KeptRuns, KeptAttempts;
      ghost var was := State();
      var ranks := PruneRanks(runs, locked, before);
      var best := SelectBest(ranks, limit);
      var gone := Elements(best);
      doomed := gone;
      PruneStep(was, gone, locked, before, now);
      PruneTakesFirst(was.runs, locked, before, limit, gone);
      runs := KeptRuns(runs, gone);
      attempts := KeptAttempts(attempts, gone);
      pruned := pruned + gone;
      clock := now;
      deleted := |gone|;
    }

    /** Returns the id of the new task, or of the one that holds the deduplication key. */
    method EnqueueTask(newId: RunId, spec: Spec, at: Option<Time>, txNow: Time, now: Time) returns (id: RunId)
      requires Valid() && clock <= now && txNow <= now
      requires newId !in created && SpecCheck(spec)
      modifies this
      ensures Valid()
      ensures Enabled(old(State()), Event(Enqueue(newId, spec, at), txNow, now))
      ensures State() == Next(old(State()), Event(Enqueue(newId, spec, at), txNow, now))
      ensures id in runs && ReturnsId(old(State()), Event(Enqueue(newId, spec, at), txNow, now), id)
      ensures attempts == old(attempts)
      ensures if id in old(runs)
              then runs == old(runs) && spec.dedupKey.Some?
                   && old(runs)[id].spec.dedupKey == spec.dedupKey && old(runs)[id].spec.jobName == spec.jobName
                   && (forall i :: i in old(runs) && i != id ==>
                         || old(runs)[i].spec.dedupKey != spec.dedupKey
                         || old(runs)[i].spec.jobName != spec.jobName)
              else var t := if at.Some? then at.value else txNow;
                   && id == newId
                   && (spec.dedupKey.Some? ==>
                         forall i :: i in old(runs) ==> old(runs)[i].spec.dedupKey != spec.dedupKey
                                                        || old(runs)[i].spec.jobName != spec.jobName)
                   && runs == old(runs)[newId := Run(
                     Spec(None, spec.jobName, spec.jobArgs, t, spec.priority, spec.maxAttempts, spec.leaseDuration,
                          spec.retryBackoff, spec.dedupKey),
                     RunState.Pending, 0, t, None, None, None, None, None, None)]
    {
      hide Inv, Next;
      ghost var before := State();
      ghost var e := Event(Enqueue(newId, spec, at), txNow, now);
      StepKeeps(before, e);
      NewIdIsNew(before, newId);
      EnqueueColumns(before, newId, spec, at, txNow, now);
      var s := EnqueuedSpec(spec, at, txNow);
      clock := now;
      if DedupIn(runs, s) {
        id :| id in runs && SameDedup(Newborn(s, 0), runs[id]);
        DedupStep(before, e, id);
      } else {
        EnqueueStep(before, e);
        runs := runs[newId := Newborn(s, s.scheduledFor)];
        created := created + {newId};
        id := newId;
      }
    }

    // -------------------------------------------------------------------------
    // materialize_one, materialize_due_jobs
    // -------------------------------------------------------------------------

    /**
     One transaction of the materializer on an earliest due unlocked job.  A failing
     `next_after` is an error that rolls the transaction back.
     */
    method MaterializeOne(engine: Engine, newId: RunId, locked: set<JobId>, txNow: Time, now: Time)
      returns (r: Result<Tick>, ghost job: JobId)
      requires Valid() && clock <= now && txNow <= now && EngineOk(engine) && newId !in created
      modifies this
      ensures Valid()
      ensures r == Ok(Idle) <==>
        forall i :: i in old(jobs) ==> i in locked || txNow < old(jobs)[i].nextRunAt || old(jobs)[i].paused
      ensures r == Ok(Idle) <==> DueJobs(old(jobs), locked, txNow) == {}
      ensures r == Ok(Idle) ==> State() == Advance(old(State()), now)
      ensures r != Ok(Idle) ==>
        && job in old(jobs) && IsEarliest(old(jobs), DueJobs(old(jobs), locked, txNow), job)
        && var e := Event(Materialize(job, newId, engine(old(jobs)[job].cron, txNow)), txNow, now);
        && Enabled(old(State()), e) && State() == Next(old(State()), e)
        && (r.Err? <==> engine(old(jobs)[job].cron, txNow).NoNext?)
      ensures r != Ok(Idle) ==>
        && job !in locked && old(jobs)[job].nextRunAt <= txNow && !old(jobs)[job].paused
        && forall i :: i in old(jobs) && i !in locked && old(jobs)[i].nextRunAt <= txNow && !old(jobs)[i].paused ==>
             old(jobs)[job].nextRunAt <= old(jobs)[i].nextRunAt
      ensures r == Ok(Processed) ==>
        var j, answer := old(jobs)[job], engine(old(jobs)[job].cron, txNow);
        && jobs == old(jobs)[job := if answer.NextAt? then j.(nextRunAt := answer.at) else j.(paused := true)]
        && attempts == old(attempts)
        && runs ==
           if answer.Corrupt?
              || exists i :: i in old(runs) && old(runs)[i].spec.jobId == Some(job)
                             && old(runs)[i].spec.scheduledFor == j.nextRunAt
           then old(runs)
           else old(runs)[newId := Run(
             Spec(Some(job), j.name, j.args, j.nextRunAt, 0, j.maxAttempts, j.leaseDuration, j.retryBackoff, None),
             RunState.Pending, 0, j.nextRunAt, None, None, None, None, None, None)]
      ensures r.Err? ==> r == Err(CronFailure) && State() == Advance(old(State()), now)
    {
      hide Inv, Next, OccurrenceIn, Enabled, DueJobs, IsEarliest;
      ghost var before := State();
      var due := DueJobs(jobs, locked, txNow);
      DueColumns(jobs, locked, txNow);
      if due == {} {
        job := 0;
        AdvanceKeeps(before, now);
        clock := now;
        return Ok(Idle), job;
      }
      var id := PickEarliest(jobs, due);
      job := id;
      var row := jobs[id];
      var answer := engine(row.cron, txNow);
      ghost var e := Event(Materialize(id, newId, answer), txNow, now);
      MaterializeStep(before, e);
      MaterializeColumns(before, id, newId, answer, txNow, now);
      match answer {
        case Corrupt =>
          jobs := jobs[id := row.(paused := true)];
        case NoNext =>
          clock := now;
          return Err(CronFailure), job;
        case NextAt(next) =>
          var spec := OccurrenceSpec(id, row);
          if !OccurrenceIn(runs, spec) {
            runs := runs[newId := Newborn(spec, row.nextRunAt)];
            created := created + {newId};
            minted := minted + multiset{Occurrence(id, row.nextRunAt)};
          }
          jobs := jobs[id := row.(nextRunAt := next)];
      }
      clock := now;
      r := Ok(Processed);
    }

    /**
     The drain loop: each tick is a transaction with its own clocks and locks.  `trail`
     are the states after the ticks, `picks` the jobs they handled, `end` why it stopped.
     */
    method MaterializeDueJobs(engine: Engine, envs: seq<TickEnv>)
      returns (r: Result<nat>, ghost trail: seq<Db>, ghost picks: seq<JobId>, ghost end: Ending)
      requires Valid() && EngineOk(engine) && EnvsOk(envs, 0, clock, created)
      modifies this
      ensures Valid()
      ensures IsWholeDrain(trail, picks, engine, envs, end) && trail[0] == old(State())
      ensures r == if end.StuckAt? then Err(CronFailure) else Ok(|picks|)
      ensures r.Ok? ==> r.value <= 100 && (end.FullBatch? <==> r.value == 100)
      ensures State() == if end.FullBatch? then trail[|picks|] else Advance(trail[|picks|], envs[|picks|].now)
    {
      hide Inv, Next, IsEarliest, DueJobs, IsDrain, EnvsOk;
      trail, picks, end := [State()], [], FullBatch;
      DrainBegins(State(), engine, envs, created);
      var count := 0;
      while count < BATCH
        invariant Valid() && count <= BATCH && |picks| == count && |trail| == count + 1 && |envs| == BATCH
        invariant EnvsOk(envs, count, clock, created)
        invariant IsDrain(trail, picks, engine, envs) && trail[0] == old(State()) && trail[count] == State()
        decreases BATCH - count
      {
        ghost var before := State();
        var env := envs[count];
        EnvIsOk(envs, count, clock, created);
        var tick, job := MaterializeOne(engine, env.newId, env.locked, env.txNow, env.now);
        if tick.Err? {
          end := StuckAt(job);
          return Err(CronFailure), trail, picks, end;
        }
        if tick.value.Idle? {
          end := NothingDue;
          break;
        }
        DrainTicks(trail, picks, engine, envs, job, State());
        trail, picks := trail + [State()], picks + [job];
        count := count + 1;
      }
      r := Ok(count);
    }

    // -------------------------------------------------------------------------
    // create, ensure_job, reschedule, set_paused, delete
    // -------------------------------------------------------------------------

    /** Strict registration: a taken name violates the unique constraint. */
    method CreateJob(newJob: JobId, config: Job, engine: Engine, txNow: Time, now: Time)
      returns (r: Result<JobId>)
      requires Valid() && clock <= now && txNow <= now && EngineOk(engine)
      requires newJob !in jobsCreated && JobCheck(config) && !engine(config.cron, txNow).Corrupt?
      modifies this
      ensures Valid()
      ensures var e := Event(Action.CreateJob(newJob, config, engine(config.cron, txNow)), txNow, now);
        Enabled(old(State()), e) && State() == Next(old(State()), e)
      ensures r == if !engine(config.cron, txNow).NextAt? then Err(CronFailure)
                   else if exists i :: i in old(jobs) && old(jobs)[i].name == config.name then Err(DuplicateName)
                   else Ok(newJob)
      ensures runs == old(runs) && attempts == old(attempts)
      ensures jobs == if r.Ok? then old(jobs)[newJob := config.(nextRunAt := engine(config.cron, txNow).at)]
                      else old(jobs)
    {
      hide Inv;
      ghost var before := State();
      var answer := engine(config.cron, txNow);
      StepKeeps(before, Event(Action.CreateJob(newJob, config, answer), txNow, now));
      AllJobsKnown(before);
      clock := now;
      if !answer.NextAt? {
        return Err(CronFailure);
      }
      if exists i :: i in jobs && jobs[i].name == config.name {
        return Err(DuplicateName);
      }
      jobs := jobs[newJob := config.(nextRunAt := answer.at)];
      jobsCreated := jobsCreated + {newJob};
      assert before.jobsCreated + jobs.Keys == jobsCreated;
      r := Ok(newJob);
    }

    /** `pause` and `resume`: returns whether there was such a job. */
    method SetPaused(job: JobId, paused: bool, now: Time) returns (changed: bool)
      requires Valid() && clock <= now
      modifies this
      ensures Valid()
      ensures var e := Event(Action.SetPaused(job, paused), now, now);
        Enabled(old(State()), e) && State() == Next(old(State()), e)
      ensures changed <==> job in old(jobs)
      ensures runs == old(runs) && attempts == old(attempts)
      ensures jobs == if changed then old(jobs)[job := old(jobs)[job].(paused := paused)] else old(jobs)
    {
      hide Inv;
      ghost var before := State();
      StepKeeps(before, Event(Action.SetPaused(job, paused), now, now));
      AllJobsKnown(before);
      clock := now;
      changed := job in jobs;
      if changed {
        jobs := jobs[job := jobs[job].(paused := paused)];
        assert before.jobsCreated + jobs.Keys == jobsCreated;
      }
    }

    /** Deletes the schedule; tasks it has enqueued stay. */
    method DeleteJob(job: JobId, now: Time) returns (changed: bool)
      requires Valid() && clock <= now
      modifies this
      ensures Valid()
      ensures Enabled(old(State()), Event(Action.DeleteJob(job), now, now))
      ensures State() == Next(old(State()), Event(Action.DeleteJob(job), now, now))
      ensures changed <==> job in old(jobs)
      ensures jobs == old(jobs) - {job} && runs == old(runs) && attempts == old(attempts)
    {
      hide Inv;
      ghost var before := State();
      StepKeeps(before, Event(Action.DeleteJob(job), now, now));
      AllJobsKnown(before);
      clock := now;
      changed := job in jobs;
      jobs := jobs - {job};
      assert before.jobsCreated + jobs.Keys == jobsCreated;
    }

    /** Registers a job; a job that has the name keeps its id, cursor and pause flag. */
    method EnsureJob(newJob: JobId, config: Job, engine: Engine, txNow: Time, now: Time)
      returns (r: Result<JobId>)
      requires Valid() && clock <= now && txNow <= now && EngineOk(engine)
      requires newJob !in jobsCreated && JobCheck(config) && !engine(config.cron, txNow).Corrupt?
      modifies this
      ensures Valid()
      ensures var e := Event(Action.EnsureJob(newJob, config, engine(config.cron, txNow)), txNow, now);
        Enabled(old(State()), e) && State() == Next(old(State()), e)
      ensures r.Err? ==> State() == Advance(old(State()), now)
      ensures r.Ok? ==> r.value in jobs && jobs[r.value].name == config.name
      ensures r.Ok? <==> engine(config.cron, txNow).NextAt?
      ensures r.Err? ==> r == Err(CronFailure)
      ensures r.Ok? && r.value in old(jobs) ==>
        var was := old(jobs)[r.value];
        jobs == old(jobs)[r.value := Job(was.name, config.cron, config.args, was.nextRunAt, config.leaseDuration,
                                         config.maxAttempts, config.retryBackoff, was.paused)]
      ensures r.Ok? && r.value !in old(jobs) ==>
        && r.value == newJob && (forall i :: i in old(jobs) ==> old(jobs)[i].name != config.name)
        && jobs == old(jobs)[newJob := config.(nextRunAt := engine(config.cron, txNow).at)]
    {
      hide Inv;
      ghost var before := State();
      var answer := engine(config.cron, txNow);
      StepKeeps(before, Event(Action.EnsureJob(newJob, config, answer), txNow, now));
      clock := now;
      if !answer.NextAt? {
        return Err(CronFailure);
      }
      if exists i :: i in jobs && jobs[i].name == config.name {
        var id :| id in jobs && jobs[id].name == config.name;
        EnsureExisting(before, newJob, config, answer, now, id);
        jobs := jobs[id := Reconfigured(jobs[id], config)];
        r := Ok(id);
      } else {
        AllJobsKnown(before);
        EnsureNew(before, newJob, config, answer, now);
        jobs := jobs[newJob := config.(nextRunAt := answer.at)];
        jobsCreated := jobsCreated + {newJob};
        r := Ok(newJob);
      }
    }

    /**
     Moves a cursor.  The returned projection re-parses the stored cron, so pinning the
     next run of a corrupt job takes effect and still reports the corruption.
     */
    method Reschedule(job: JobId, at: Option<Time>, engine: Engine, txNow: Time, now: Time)
      returns (r: Result<Option<JobId>>)
      requires Valid() && clock <= now && txNow <= now && EngineOk(engine)
      modifies this
      ensures Valid()
      ensures r == Ok(None) <==> job !in old(jobs)
      ensures job !in old(jobs) ==> State() == Advance(old(State()), now)
      ensures job in old(jobs) ==>
        var answer := engine(old(jobs)[job].cron, txNow);
        && var e := Event(Action.Reschedule(job,
                            if at.Some? then SetNextRunAt(at.value) else ResetFromNow(answer)), txNow, now);
        && Enabled(old(State()), e) && State() == Next(old(State()), e)
        && (r.Ok? <==> if at.Some? then !answer.Corrupt? else answer.NextAt?)
        && (r.Ok? ==> r == Ok(Some(job)))
        && (r.Err? ==> r == Err(if answer.Corrupt? then CorruptJob else CronFailure))
        && jobs == if at.Some? then old(jobs)[job := old(jobs)[job].(nextRunAt := at.value)]
                   else if answer.NextAt? then old(jobs)[job := old(jobs)[job].(nextRunAt := answer.at)]
                   else old(jobs)
    {
      hide Inv;
      ghost var before := State();
      clock := now;
      if job !in jobs {
        AdvanceKeeps(before, now);
        return Ok(None);
      }
      var answer := engine(jobs[job].cron, txNow);
      var update := if at.Some? then SetNextRunAt(at.value) else ResetFromNow(answer);
      StepKeeps(before, Event(Action.Reschedule(job, update), txNow, now));
      if at.None? && !answer.NextAt? {
        return Err(if answer.Corrupt? then CorruptJob else CronFailure);
      }
      var next := if at.Some? then at.value else answer.at;
      RescheduleTables(before, job, next, now);
      jobs := jobs[job := jobs[job].(nextRunAt := next)];
      r := if answer.Corrupt? then Err(CorruptJob) else Ok(Some(job));
    }
  }
}
