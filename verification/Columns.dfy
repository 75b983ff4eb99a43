/**
 The transactions column by column.  Each lemma says what one step of `Protocol` does to
 every row of the tables in terms of columns and literals alone, and which rows a batch
 statement takes, so that the functions the model is built from are tied to the text of
 the SQL they stand for.
 */
module Columns {
  import opened Rows
  import opened Lease
  import opened Tables
  import opened Protocol
  import opened Runs
  import opened Schedule
  import opened ReadCommitted
  import opened Ordering
  import opened Statements

  // ---------------------------------------------------------------------------
  // finalize_run, fail_run, renew_lease
  // ---------------------------------------------------------------------------

  /** One move on a running task writes its row and its last attempt. */
  lemma OneMove(db: Db, id: RunId, m: Move, now: Time)
    requires Inv(db) && id in db.runs && db.runs[id].state == RunState.Running && !m.Start?
    ensures var last := Key(id, db.runs[id].attemptCount);
      && last in db.attempts
      && Perform(db, map[id := m], now) ==
         db.(runs := db.runs[id := RowAfter(db.runs[id], m, now)],
             attempts := db.attempts[last := AttemptAfter(db.attempts[last], db.runs[id], m, now)],
             clock := now)
  {
    ContiguousOf(db);
    RunningHasOpenAttempt(db, id);
    hide Inv, Perform, RowAfter, AttemptAfter, Contiguous;
    PerformOne(db, id, m, now);
  }

  lemma FinalizeColumns(db: Db, id: RunId, token: Token, outcome: Outcome, now: Time)
    requires Inv(db) && db.clock <= now
    ensures var b := Next(db, Event(Finalize(id, token, outcome), now, now));
      if && id in db.runs && db.runs[id].state == RunState.Running && db.runs[id].leaseToken == Some(token)
         && db.runs[id].leaseExpiresAt.Some? && now < db.runs[id].leaseExpiresAt.value
      then
        var error := if outcome.Succeeded? then None else Some(outcome.error);
        var last := Key(id, db.runs[id].attemptCount);
        && b.runs == db.runs[id := db.runs[id].(
             state := if outcome.Succeeded? then RunState.Completed else RunState.Failed,
             workerId := None, leaseToken := None, leaseExpiresAt := None, startedAt := None,
             finishedAt := Some(now), lastError := error)]
        && last in db.attempts
        && b.attempts == db.attempts[last := db.attempts[last].(
             finishedAt := Some(now), error := error,
             outcome := Some(if outcome.Succeeded? then AttemptOutcome.Completed else AttemptOutcome.Failed))]
      else
        b.runs == db.runs && b.attempts == db.attempts
  {
    hide Inv, Perform;
    if LiveIn(db, id, token, now) {
      OneMove(db, id, Finish(token, outcome), now);
    } else {
      PerformNothing(db, now);
    }
  }

  lemma FailColumns(db: Db, id: RunId, token: Token, failure: string, retryable: bool, now: Time)
    requires Inv(db) && db.clock <= now
    ensures var b := Next(db, Event(Fail(id, token, failure, retryable), now, now));
      if && id in db.runs && db.runs[id].state == RunState.Running && db.runs[id].leaseToken == Some(token)
         && db.runs[id].leaseExpiresAt.Some? && now < db.runs[id].leaseExpiresAt.value
      then
        var again := retryable && db.runs[id].attemptCount < db.runs[id].spec.maxAttempts;
        var last := Key(id, db.runs[id].attemptCount);
        && b.runs == db.runs[id := db.runs[id].(
             state := if again then RunState.Pending else RunState.Failed,
             availableAt := if again then now + db.runs[id].spec.retryBackoff else db.runs[id].availableAt,
             workerId := None, leaseToken := None, leaseExpiresAt := None, startedAt := None,
             finishedAt := if again then None else Some(now),
             lastError := if again then None else Some(failure))]
        && last in db.attempts
        && b.attempts == db.attempts[last := db.attempts[last].(
             finishedAt := Some(now), outcome := Some(AttemptOutcome.Failed), error := Some(failure))]
      else
        b.runs == db.runs && b.attempts == db.attempts
  {
    hide Inv, Perform;
    if LiveIn(db, id, token, now) {
      OneMove(db, id, Fault(token, failure, retryable), now);
    } else {
      PerformNothing(db, now);
    }
  }

  lemma RenewColumns(db: Db, id: RunId, token: Token, now: Time)
    requires Inv(db) && db.clock <= now
    ensures var b := Next(db, Event(Renew(id, token), now, now));
      if && id in db.runs && db.runs[id].state == RunState.Running && db.runs[id].leaseToken == Some(token)
         && db.runs[id].leaseExpiresAt.Some? && now < db.runs[id].leaseExpiresAt.value
      then
        var until := now + db.runs[id].spec.leaseDuration;
        var last := Key(id, db.runs[id].attemptCount);
        && b.runs == db.runs[id := db.runs[id].(leaseExpiresAt := Some(until))]
        && last in db.attempts
        && b.attempts == db.attempts[last := db.attempts[last].(leaseExpiresAt := until)]
      else
        b.runs == db.runs && b.attempts == db.attempts
  {
    hide Inv, Perform;
    if LiveIn(db, id, token, now) {
      OneMove(db, id, Extend(token), now);
    } else {
      PerformNothing(db, now);
    }
  }

  /** The row after a renewal is held as before, and its open attempt has its deadline. */
  lemma RenewedLease(db: Db, id: RunId, token: Token, now: Time)
    requires Inv(db) && db.clock <= now && LiveIn(db, id, token, now)
    ensures var b := Next(db, Event(Renew(id, token), now, now));
      var until := now + db.runs[id].spec.leaseDuration;
      var last := Key(id, db.runs[id].attemptCount);
      && id in b.runs && b.runs[id].state == RunState.Running && b.runs[id].leaseToken == Some(token)
      && b.runs[id].attemptCount == db.runs[id].attemptCount && b.runs[id].spec == db.runs[id].spec
      && b.runs[id].leaseExpiresAt == Some(until)
      && last in b.attempts && b.attempts[last].outcome.None? && b.attempts[last].leaseExpiresAt == until
  {
    RenewColumns(db, id, token, now);
    RunningHasOpenAttempt(db, id);
    OpenLast(db, id);
    hide Inv, Next;
  }

  lemma OpenLast(db: Db, id: RunId)
    requires Inv(db) && id in db.runs && db.runs[id].state == RunState.Running
    ensures Key(id, db.runs[id].attemptCount) in db.attempts
    ensures db.attempts[Key(id, db.runs[id].attemptCount)].outcome.None?
  {
    RunningHasOpenAttempt(db, id);
  }

  // ---------------------------------------------------------------------------
  // claim_batch
  // ---------------------------------------------------------------------------

  /** A claim opens attempt_count + 1 under the token, until now plus the lease duration. */
  lemma ClaimRunColumns(db: Db, worker: string, picked: map<RunId, Token>, txNow: Time, now: Time)
    requires Inv(db) && Enabled(db, Event(Claim(worker, picked), txNow, now))
    ensures var b := Next(db, Event(Claim(worker, picked), txNow, now)).runs;
      && b.Keys == db.runs.Keys
      && forall id :: id in db.runs ==>
           b[id] ==
           if id in picked then db.runs[id].(
             state := RunState.Running, attemptCount := db.runs[id].attemptCount + 1,
             workerId := Some(worker), leaseToken := Some(picked[id]), startedAt := Some(now),
             leaseExpiresAt := Some(now + db.runs[id].spec.leaseDuration))
           else db.runs[id]
  {
    ContiguousOf(db);
    hide Inv, Next, Enabled, Contiguous, StartedRuns, StartedAttempts;
    ClaimTables(db, worker, picked, txNow, now);
    StartedRunColumns(db.runs, worker, picked, now);
  }

  lemma ClaimAttemptColumns(db: Db, worker: string, picked: map<RunId, Token>, txNow: Time, now: Time)
    requires Inv(db) && Enabled(db, Event(Claim(worker, picked), txNow, now))
    ensures var b := Next(db, Event(Claim(worker, picked), txNow, now)).attempts;
      && (forall k: Key :: k in b <==>
            || k in db.attempts
            || (k.run in picked && k.run in db.runs && k.number == db.runs[k.run].attemptCount + 1))
      && (forall k :: k in db.attempts ==> b[k] == db.attempts[k])
      && (forall k :: k in b && k !in db.attempts && k.run in picked && k.run in db.runs ==>
            b[k] ==
            Attempt(worker, picked[k.run], now, now + db.runs[k.run].spec.leaseDuration, None, None, None))
  {
    ContiguousOf(db);
    hide Inv, Next, Enabled, Contiguous, StartedRuns, StartedAttempts, StartedKeys;
    ClaimTables(db, worker, picked, txNow, now);
    StartedKeysAreNew(db, picked);
    StartedAttemptColumns(db.runs, worker, picked, now);
  }

  /** What a claim hands out is what its row then holds, in the order of the final SELECT. */
  lemma ClaimsMatchRows(claimed: seq<ClaimedRun>, was: map<RunId, Run>, runs: map<RunId, Run>,
                        picked: map<RunId, Token>, worker: string, names: set<string>, now: Time)
    requires Dispatchable(claimed, was, picked, names, now) && runs.Keys == was.Keys
    requires forall id :: id in was && id in picked ==>
      runs[id] == was[id].(
        state := RunState.Running, attemptCount := was[id].attemptCount + 1,
        workerId := Some(worker), leaseToken := Some(picked[id]), startedAt := Some(now),
        leaseExpiresAt := Some(now + was[id].spec.leaseDuration))
    ensures forall i :: 0 <= i < |claimed| ==>
      var c := claimed[i];
      && c.runId in picked && c.runId in runs && c.spec == runs[c.runId].spec
      && c.attempt == runs[c.runId].attemptCount && runs[c.runId].leaseToken == Some(c.leaseToken)
      && runs[c.runId].leaseExpiresAt == Some(c.leaseExpiresAt)
      && c.leaseDuration.micros == runs[c.runId].spec.leaseDuration
    ensures forall i, j :: 0 <= i < j < |claimed| ==>
      || claimed[i].spec.scheduledFor < claimed[j].spec.scheduledFor
      || (claimed[i].spec.scheduledFor == claimed[j].spec.scheduledFor && claimed[i].runId < claimed[j].runId)
  {
  }

  lemma StartedRunColumns(runs: map<RunId, Run>, worker: string, picked: map<RunId, Token>, now: Time)
    ensures var b := StartedRuns(runs, worker, picked, now);
      && b.Keys == runs.Keys
      && forall id :: id in runs ==>
           b[id] ==
           if id in picked then runs[id].(
             state := RunState.Running, attemptCount := runs[id].attemptCount + 1,
             workerId := Some(worker), leaseToken := Some(picked[id]), startedAt := Some(now),
             leaseExpiresAt := Some(now + runs[id].spec.leaseDuration))
           else runs[id]
  {
  }

  lemma StartedAttemptColumns(runs: map<RunId, Run>, worker: string, picked: map<RunId, Token>, now: Time)
    ensures var news := StartedAttempts(runs, worker, picked, now);
      && news.Keys == StartedKeys(runs, picked)
      && (forall k: Key :: k in news <==>
            k.run in picked && k.run in runs && k.number == runs[k.run].attemptCount + 1)
      && (forall k :: k in news && k.run in picked && k.run in runs ==>
            news[k] == Attempt(worker, picked[k.run], now, now + runs[k.run].spec.leaseDuration, None, None, None))
  {
    forall k: Key | k.run in picked && k.run in runs && k.number == runs[k.run].attemptCount + 1
      ensures k in StartedKeys(runs, picked)
    {
      assert k == Key(k.run, runs[k.run].attemptCount + 1);
    }
  }

  // ---------------------------------------------------------------------------
  // recover_expired
  // ---------------------------------------------------------------------------

  /** RECOVER takes the first running unlocked tasks past their deadline, by (deadline, id). */
  ghost predicate TakesOverdue(runs: map<RunId, Run>, locked: set<RunId>, now: Time, limit: nat, batch: set<RunId>) {
    && (forall x :: x in batch ==>
          && x in runs && x !in locked && runs[x].state == RunState.Running
          && runs[x].leaseExpiresAt.Some? && runs[x].leaseExpiresAt.value <= now)
    && (forall x, y ::
          && x in batch && x in runs && y in runs && y !in batch && y !in locked
          && runs[x].leaseExpiresAt.Some? && runs[y].state == RunState.Running
          && runs[y].leaseExpiresAt.Some? && runs[y].leaseExpiresAt.value <= now
          ==>
          || runs[x].leaseExpiresAt.value < runs[y].leaseExpiresAt.value
          || (runs[x].leaseExpiresAt == runs[y].leaseExpiresAt && x < y))
    && var n := |set y | y in runs && y !in locked && runs[y].state == RunState.Running
                         && runs[y].leaseExpiresAt.Some? && runs[y].leaseExpiresAt.value <= now|;
       |batch| == if limit < n then limit else n
  }

  lemma RecoverTakesFirst(runs: map<RunId, Run>, locked: set<RunId>, now: Time, limit: nat, batch: set<RunId>)
    requires IsBest(RecoverRanks(runs, locked, now), limit, batch)
    ensures TakesOverdue(runs, locked, now, limit, batch)
  {
    var ranks := RecoverRanks(runs, locked, now);
    assert ranks.Keys == set y | y in runs && y !in locked && runs[y].state == RunState.Running
                                 && runs[y].leaseExpiresAt.Some? && runs[y].leaseExpiresAt.value <= now;
    assert |ranks| == |ranks.Keys|;
  }

  /** The guard on columns: the snapshot shows the last attempt, open, under the row's token. */
  lemma RecordedColumns(db: Db, snap: Db, id: RunId)
    requires Inv(db) && id in db.runs && db.runs[id].state == RunState.Running
    ensures var last := Key(id, db.runs[id].attemptCount);
      AttemptRecorded(db, snap, id) <==>
      && last in snap.attempts && snap.attempts[last].outcome.None?
      && Some(snap.attempts[last].leaseToken) == db.runs[id].leaseToken
  {
    RunningHasOpenAttempt(db, id);
    var last, token := Key(id, db.runs[id].attemptCount), db.runs[id].leaseToken.value;
    TokenFindsOneAttempt(db, id, token);
    hide Inv;
    assert forall k :: k in Recorded(db, snap, token) ==> k in OpenFor(db.attempts, token);
    assert last in OpenFor(db.attempts, token);
    assert last in Recorded(db, snap, token) <==> last in snap.attempts && OpenWith(snap.attempts[last], token);
  }

  /** Of the batch, the tasks whose last attempt the snapshot shows open under the row's token. */
  ghost predicate Recovers(runs: map<RunId, Run>, snap: Db, batch: set<RunId>, moved: set<RunId>) {
    forall id :: id in moved <==>
      && id in batch && id in runs
      && Key(id, runs[id].attemptCount) in snap.attempts
      && snap.attempts[Key(id, runs[id].attemptCount)].outcome.None?
      && Some(snap.attempts[Key(id, runs[id].attemptCount)].leaseToken) == runs[id].leaseToken
  }

  lemma RecoverMovesColumns(db: Db, batch: set<RunId>, snap: Db, now: Time)
    requires Inv(db) && Enabled(db, Event(Recover(batch, snap), now, now))
    ensures Recovers(db.runs, snap, batch, Moves(db, Event(Recover(batch, snap), now, now)).Keys)
  {
    hide Inv, AttemptRecorded;
    forall id | id in batch
      ensures AttemptRecorded(db, snap, id) <==>
        && Key(id, db.runs[id].attemptCount) in snap.attempts
        && snap.attempts[Key(id, db.runs[id].attemptCount)].outcome.None?
        && Some(snap.attempts[Key(id, db.runs[id].attemptCount)].leaseToken) == db.runs[id].leaseToken
    {
      RecordedColumns(db, snap, id);
    }
  }

  /** A moved task is claimable at once if attempts remain, and failed otherwise; no other changes. */
  ghost predicate RecoveredAs(was: map<RunId, Run>, runs: map<RunId, Run>, moved: set<RunId>, now: Time) {
    && runs.Keys == was.Keys
    && forall id :: id in was && id in runs ==>
         var r := was[id];
         runs[id] ==
         if id !in moved then r
         else if r.attemptCount < r.spec.maxAttempts then r.(
           state := RunState.Pending, availableAt := now, workerId := None, leaseToken := None,
           leaseExpiresAt := None, startedAt := None, finishedAt := None, lastError := None)
         else r.(
           state := RunState.Failed, workerId := None, leaseToken := None, leaseExpiresAt := None,
           startedAt := None, finishedAt := Some(now),
           lastError := Some("lease expired; max attempts exhausted"))
  }

  lemma RecoverMovesAre(db: Db, batch: set<RunId>, snap: Db, now: Time)
    requires Inv(db) && Enabled(db, Event(Recover(batch, snap), now, now))
    ensures var moved := Moves(db, Event(Recover(batch, snap), now, now)).Keys;
      var hits := HitKeys(db.runs, db.attempts, snap.attempts, batch);
      && moved <= batch <= db.runs.Keys
      && (forall id :: id in batch ==>
            && (id in moved <==> Guard(hits, id))
            && (id in moved <==> Key(id, db.runs[id].attemptCount) in hits))
      && (forall k :: k in hits ==> k.run in moved && k == Key(k.run, db.runs[k.run].attemptCount))
  {
    hide Inv, HitKeys, Guard, AttemptRecorded;
    forall id | id in batch
      ensures AttemptRecorded(db, snap, id) <==> Guard(HitKeys(db.runs, db.attempts, snap.attempts, batch), id)
      ensures AttemptRecorded(db, snap, id) <==>
        Key(id, db.runs[id].attemptCount) in HitKeys(db.runs, db.attempts, snap.attempts, batch)
    {
      GuardIsRecorded(db, snap, batch, id);
    }
    forall k | k in HitKeys(db.runs, db.attempts, snap.attempts, batch)
      ensures k.run in batch && k == Key(k.run, db.runs[k.run].attemptCount) && AttemptRecorded(db, snap, k.run)
    {
      HitIsLast(db, snap, batch, k);
    }
  }

  lemma RecoverRunColumns(db: Db, batch: set<RunId>, snap: Db, now: Time)
    requires Inv(db) && Enabled(db, Event(Recover(batch, snap), now, now))
    ensures RecoveredAs(db.runs, Next(db, Event(Recover(batch, snap), now, now)).runs,
                        Moves(db, Event(Recover(batch, snap), now, now)).Keys, now)
  {
    hide Inv, Next, Enabled, HitKeys, Guard, Moves, CloseAttempts, RecoveredRuns, RecoveredAs;
    RecoverMovesAre(db, batch, snap, now);
    RecoverStep(db, batch, snap, now);
    RecoveredRunColumns(db.runs, batch, HitKeys(db.runs, db.attempts, snap.attempts, batch),
                        Moves(db, Event(Recover(batch, snap), now, now)).Keys, now);
  }

  lemma RecoveredRunColumns(runs: map<RunId, Run>, batch: set<RunId>, hits: set<Key>, moved: set<RunId>, now: Time)
    requires moved <= batch && forall id :: id in batch ==> (id in moved <==> Guard(hits, id))
    ensures RecoveredAs(runs, RecoveredRuns(runs, batch, hits, now), moved, now)
  {
    hide Guard;
  }

  /** Of a moved task the last attempt is closed, all other attempts are as they were. */
  lemma RecoverAttemptColumns(db: Db, batch: set<RunId>, snap: Db, now: Time)
    requires Inv(db) && Enabled(db, Event(Recover(batch, snap), now, now))
    ensures var moved := Moves(db, Event(Recover(batch, snap), now, now)).Keys;
      var b := Next(db, Event(Recover(batch, snap), now, now)).attempts;
      && b.Keys == db.attempts.Keys
      && forall k :: k in db.attempts ==>
           b[k] ==
           if k.run in moved && k.run in db.runs && k.number == db.runs[k.run].attemptCount
           then db.attempts[k].(finishedAt := Some(now), outcome := Some(AttemptOutcome.Expired),
                                error := Some("lease expired"))
           else db.attempts[k]
  {
    hide Inv, Next, Enabled, HitKeys, Guard, Moves, RecoveredRuns, CloseAttempts;
    RecoverMovesAre(db, batch, snap, now);
    RecoverStep(db, batch, snap, now);
    ClosedColumns(db, HitKeys(db.runs, db.attempts, snap.attempts, batch),
                  Moves(db, Event(Recover(batch, snap), now, now)).Keys, now);
  }

  lemma ClosedColumns(db: Db, hits: set<Key>, moved: set<RunId>, now: Time)
    requires moved <= db.runs.Keys
    requires forall id :: id in moved ==> Key(id, db.runs[id].attemptCount) in hits
    requires forall k :: k in hits ==> k.run in moved && k == Key(k.run, db.runs[k.run].attemptCount)
    ensures var b := CloseAttempts(db.attempts, hits, now, AttemptOutcome.Expired, Some(LEASE_EXPIRED));
      && b.Keys == db.attempts.Keys
      && forall k :: k in db.attempts ==>
           b[k] ==
           if k.run in moved && k.run in db.runs && k.number == db.runs[k.run].attemptCount
           then db.attempts[k].(finishedAt := Some(now), outcome := Some(AttemptOutcome.Expired),
                                error := Some("lease expired"))
           else db.attempts[k]
  {
    forall k | k in db.attempts && k.run in moved && k.number == db.runs[k.run].attemptCount
      ensures k in hits
    {
      assert k == Key(k.run, db.runs[k.run].attemptCount);
    }
  }

  // ---------------------------------------------------------------------------
  // cancel, prune_terminal, enqueue
  // ---------------------------------------------------------------------------

  lemma CancelColumns(db: Db, id: RunId, snap: Db, now: Time)
    requires Inv(db) && db.clock <= now
    ensures var b := Next(db, Event(Cancel(id, snap), now, now));
      if && id in db.runs && id in snap.runs
         && (|| db.runs[id].state == RunState.Pending
             || (&& db.runs[id].state == RunState.Running
                 && Key(id, db.runs[id].attemptCount) in snap.attempts
                 && snap.attempts[Key(id, db.runs[id].attemptCount)].outcome.None?
                 && Some(snap.attempts[Key(id, db.runs[id].attemptCount)].leaseToken) == db.runs[id].leaseToken))
      then
        var last := Key(id, db.runs[id].attemptCount);
        && Cancellable(db, snap, id)
        && b.runs == db.runs[id := db.runs[id].(
             state := RunState.Cancelled, workerId := None, leaseToken := None, leaseExpiresAt := None,
             startedAt := None, finishedAt := Some(now), lastError := None)]
        && (db.runs[id].state == RunState.Running ==> last in db.attempts)
        && b.attempts == if db.runs[id].state == RunState.Pending then db.attempts
                         else if last in db.attempts then db.attempts[last := db.attempts[last].(
                           finishedAt := Some(now), outcome := Some(AttemptOutcome.Cancelled), error := None)]
                         else db.attempts
      else
        !Cancellable(db, snap, id) && b.runs == db.runs && b.attempts == db.attempts
  {
    hide Inv, Perform, AttemptRecorded;
    if id in db.runs && db.runs[id].state == RunState.Running {
      RecordedColumns(db, snap, id);
      OneMove(db, id, Abort, now);
    } else if id in db.runs && id in snap.runs && db.runs[id].state == RunState.Pending {
      CancelPendingStep(db, id, snap, now);
    }
    PerformNothing(db, now);
  }

  /** PRUNE takes the first terminal unlocked tasks that finished before the cutoff, by (end, id). */
  lemma PruneTakesFirst(runs: map<RunId, Run>, locked: set<RunId>, before: Time, limit: nat, doomed: set<RunId>)
    requires IsBest(PruneRanks(runs, locked, before), limit, doomed)
    ensures forall x :: x in doomed ==>
      && x in runs && x !in locked && runs[x].state != RunState.Pending && runs[x].state != RunState.Running
      && runs[x].finishedAt.Some? && runs[x].finishedAt.value < before
    ensures forall x, y ::
      && x in doomed && y in runs && y !in doomed && y !in locked
      && runs[y].state != RunState.Pending && runs[y].state != RunState.Running
      && runs[y].finishedAt.Some? && runs[y].finishedAt.value < before
      ==>
      || runs[x].finishedAt.value < runs[y].finishedAt.value
      || (runs[x].finishedAt == runs[y].finishedAt && x < y)
    ensures var n := |set y | y in runs && y !in locked && runs[y].state != RunState.Pending
                              && runs[y].state != RunState.Running
                              && runs[y].finishedAt.Some? && runs[y].finishedAt.value < before|;
      |doomed| == if limit < n then limit else n
  {
    var ranks := PruneRanks(runs, locked, before);
    assert ranks.Keys == set y | y in runs && y !in locked && runs[y].state != RunState.Pending
                                 && runs[y].state != RunState.Running
                                 && runs[y].finishedAt.Some? && runs[y].finishedAt.value < before;
    assert |ranks| == |ranks.Keys|;
  }

  /** Exactly the doomed rows and the attempts of doomed rows go. */
  lemma PruneColumns(db: Db, doomed: set<RunId>, before: Time, now: Time)
    ensures var b := Next(db, Event(Prune(doomed, before), now, now));
      && (forall id :: id in b.runs <==> id in db.runs && id !in doomed)
      && (forall id :: id in b.runs ==> b.runs[id] == db.runs[id])
      && (forall k :: k in b.attempts <==> k in db.attempts && k.run !in doomed)
      && (forall k :: k in b.attempts ==> b.attempts[k] == db.attempts[k])
  {
  }

  /** An enqueued task is scheduled and available at the time asked for, or at once. */
  lemma EnqueueColumns(db: Db, newId: RunId, spec: Spec, at: Option<Time>, txNow: Time, now: Time)
    ensures var b := Next(db, Event(Enqueue(newId, spec, at), txNow, now));
      && b.attempts == db.attempts
      && b.runs ==
         if exists i :: i in db.runs && spec.dedupKey.Some? && db.runs[i].spec.dedupKey == spec.dedupKey
                        && db.runs[i].spec.jobName == spec.jobName
         then db.runs
         else
           var t := if at.Some? then at.value else txNow;
           db.runs[newId := Run(
             Spec(None, spec.jobName, spec.jobArgs, t, spec.priority, spec.maxAttempts, spec.leaseDuration,
                  spec.retryBackoff, spec.dedupKey),
             RunState.Pending, 0, t, None, None, None, None, None, None)]
  {
    var s := EnqueuedSpec(spec, at, txNow);
    assert forall i :: i in db.runs ==>
        (SameDedup(Newborn(s, 0), db.runs[i]) <==>
         && spec.dedupKey.Some? && db.runs[i].spec.dedupKey == spec.dedupKey
         && db.runs[i].spec.jobName == spec.jobName);
  }

  // ---------------------------------------------------------------------------
  // The materializer
  // ---------------------------------------------------------------------------

  /**
   INSERT_RUN copies every column of the job, ADVANCE moves the cursor, PAUSE sets the
   flag; the task is inserted unless one for the job's slot is there.
   */
  lemma MaterializeColumns(db: Db, job: JobId, newId: RunId, answer: Cron, txNow: Time, now: Time)
    requires job in db.jobs
    ensures var b := Next(db, Event(Materialize(job, newId, answer), txNow, now));
      var j := db.jobs[job];
      && b.attempts == db.attempts
      && b.jobs ==
         (match answer
          case Corrupt => db.jobs[job := j.(paused := true)]
          case NoNext => db.jobs
          case NextAt(at) => db.jobs[job := j.(nextRunAt := at)])
      && b.runs ==
         if !answer.NextAt?
            || exists i :: i in db.runs && db.runs[i].spec.jobId == Some(job)
                           && db.runs[i].spec.scheduledFor == j.nextRunAt
         then db.runs
         else db.runs[newId := Run(
           Spec(Some(job), j.name, j.args, j.nextRunAt, 0, j.maxAttempts, j.leaseDuration, j.retryBackoff, None),
           RunState.Pending, 0, j.nextRunAt, None, None, None, None, None, None)]
  {
    var s := OccurrenceSpec(job, db.jobs[job]);
    assert forall i :: i in db.runs ==>
        (SameOccurrence(Newborn(s, 0), db.runs[i]) <==>
         db.runs[i].spec.jobId == Some(job) && db.runs[i].spec.scheduledFor == db.jobs[job].nextRunAt);
  }

  /** SELECT_DUE: an unlocked unpaused job whose cursor has come, none of them earlier. */
  lemma DueColumns(jobs: map<JobId, Job>, locked: set<JobId>, txNow: Time)
    ensures DueJobs(jobs, locked, txNow) <= jobs.Keys
    ensures DueJobs(jobs, locked, txNow) == {} <==>
      forall i :: i in jobs ==> i in locked || txNow < jobs[i].nextRunAt || jobs[i].paused
    ensures forall job :: IsEarliest(jobs, DueJobs(jobs, locked, txNow), job) <==>
      && job in jobs && job !in locked && jobs[job].nextRunAt <= txNow && !jobs[job].paused
      && forall j :: j in jobs && j !in locked && jobs[j].nextRunAt <= txNow && !jobs[j].paused ==>
           jobs[job].nextRunAt <= jobs[j].nextRunAt
  {
    if DueJobs(jobs, locked, txNow) == {} {
      assert forall i :: i in jobs ==> i !in DueJobs(jobs, locked, txNow);
    }
  }

  // ---------------------------------------------------------------------------
  // Schedules
  // ---------------------------------------------------------------------------

  /** Deleting, pausing and resuming write the one row. */
  lemma DeleteAndPauseColumns(db: Db, job: JobId, paused: bool, txNow: Time, now: Time)
    ensures var b := Next(db, Event(DeleteJob(job), txNow, now));
      && b.runs == db.runs && b.attempts == db.attempts
      && (forall i :: i in b.jobs <==> i in db.jobs && i != job)
      && (forall i :: i in b.jobs ==> b.jobs[i] == db.jobs[i])
    ensures var b := Next(db, Event(SetPaused(job, paused), txNow, now));
      && b.runs == db.runs && b.attempts == db.attempts
      && b.jobs == if job in db.jobs then db.jobs[job := db.jobs[job].(paused := paused)] else db.jobs
  {
  }

  /** A reschedule writes the cursor of the one row. */
  lemma RescheduleColumns(db: Db, job: JobId, at: Time, answer: Cron, txNow: Time, now: Time)
    ensures var b := Next(db, Event(Action.Reschedule(job, SetNextRunAt(at)), txNow, now));
      && b.runs == db.runs && b.attempts == db.attempts
      && b.jobs == if job in db.jobs then db.jobs[job := db.jobs[job].(nextRunAt := at)] else db.jobs
    ensures var b := Next(db, Event(Action.Reschedule(job, ResetFromNow(answer)), txNow, now));
      && b.runs == db.runs && b.attempts == db.attempts
      && b.jobs == if job in db.jobs && answer.NextAt? then db.jobs[job := db.jobs[job].(nextRunAt := answer.at)]
                   else db.jobs
  {
  }

  /** `create` inserts the configuration with the computed cursor, under a free name only. */
  lemma CreateColumns(db: Db, newJob: JobId, config: Job, answer: Cron, txNow: Time, now: Time)
    ensures var b := Next(db, Event(Action.CreateJob(newJob, config, answer), txNow, now));
      && b.runs == db.runs && b.attempts == db.attempts
      && b.jobs ==
         if answer.NextAt? && forall i :: i in db.jobs ==> db.jobs[i].name != config.name
         then db.jobs[newJob := config.(nextRunAt := answer.at)]
         else db.jobs
  {
  }

  /**
   `ensure_job` does that too; under a taken name it rewrites cron, args, lease, attempts
   and backoff of the job that has it, and not its cursor and flag.
   */
  lemma EnsureColumns(db: Db, newJob: JobId, config: Job, answer: Cron, txNow: Time, now: Time)
    requires answer.NextAt?
    ensures var b := Next(db, Event(Action.EnsureJob(newJob, config, answer), txNow, now));
      && b.runs == db.runs && b.attempts == db.attempts
      && if forall i :: i in db.jobs ==> db.jobs[i].name != config.name
         then b.jobs == db.jobs[newJob := config.(nextRunAt := answer.at)]
         else
           && b.jobs.Keys == db.jobs.Keys
           && forall i :: i in db.jobs ==>
                b.jobs[i] ==
                if db.jobs[i].name != config.name then db.jobs[i]
                else Job(config.name, config.cron, config.args, db.jobs[i].nextRunAt, config.leaseDuration,
                         config.maxAttempts, config.retryBackoff, db.jobs[i].paused)
  {
    assert NameTaken(db, config.name) <==> !forall i :: i in db.jobs ==> db.jobs[i].name != config.name;
  }
}
