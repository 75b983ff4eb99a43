/**
 Cancel and recover lock the run row and so read it current, but the attempts they
 close come from the snapshot their statement took before it waited for that lock.
 This module says what the answers mean when the snapshot is older than the row.
 */
module ReadCommitted {
  import opened Rows
  import opened Lease
  import opened Tables
  import opened Protocol
  import opened Runs

  datatype CancelOutcome = Cancelled | AlreadyTerminal | NotFound

  /** `cancel`: the CANCEL statement at `db`, then the EXISTS query at `after`. */
  function CancelAnswer(db: Db, snap: Db, after: Db, id: RunId): CancelOutcome {
    if Cancellable(db, snap, id) then CancelOutcome.Cancelled
    else if id in after.runs then AlreadyTerminal
    else NotFound
  }

  /** The snapshot shows the task and, if the task is running, its open attempt. */
  predicate SnapshotShows(snap: Db, db: Db, id: RunId)
    requires id in db.runs
  {
    && id in snap.runs
    && (db.runs[id].state == RunState.Running ==> Key(id, db.runs[id].attemptCount) in snap.attempts)
  }

  /** An attempt that a past state already had was open there if it is open now. */
  lemma OpenWasOpen(past: Db, db: Db, k: Key)
    requires Inv(past) && Inv(db) && Evolves(past, db)
    requires k in past.attempts && k in db.attempts
    ensures past.attempts[k].leaseToken == db.attempts[k].leaseToken
    ensures db.attempts[k].outcome.None? ==> past.attempts[k].outcome.None?
  {
    hide TasksOk, TokensDistinct, RunsUnique, JobsOk, Accounted, TaskOk;
    AttemptIsLogEntry(past, k);
    AttemptIsLogEntry(db, k);
    var t, u := View(past, k.run), View(db, k.run);
    assert TaskEvolves(t, u, past.clock, past.issued);
    assert AttemptEvolves(t.log[k.number - 1], u.log[k.number - 1], past.clock);
  }

  /** The EXISTS guard holds exactly when the snapshot is not older than the claim. */
  lemma GuardIff(snap: Db, db: Db, id: RunId)
    requires Inv(snap) && Inv(db) && Evolves(snap, db)
    requires id in db.runs && db.runs[id].state == RunState.Running
    ensures AttemptRecorded(db, snap, id) <==> Key(id, db.runs[id].attemptCount) in snap.attempts
  {
    var last := Key(id, db.runs[id].attemptCount);
    RunningHasOpenAttempt(db, id);
    var token := db.runs[id].leaseToken.value;
    TokenFindsOneAttempt(db, id, token);
    hide Inv, Evolves;
    assert forall k :: k in Recorded(db, snap, token) ==> k in OpenFor(db.attempts, token);
    if last in snap.attempts {
      OpenWasOpen(snap, db, last);
      assert last in Recorded(db, snap, token);
    }
  }

  /** A cancel or recover event of a run reads a snapshot the run has passed through. */
  lemma SnapshotIsPast(states: seq<Db>, events: seq<Event>, i: nat, snap: Db)
    requires IsRun(states, events) && i < |events|
    requires (events[i].action.Cancel? && events[i].action.snap == snap)
             || (events[i].action.Recover? && events[i].action.snap == snap)
    ensures Inv(snap) && Inv(states[i]) && Evolves(snap, states[i])
  {
    hide Inv, Evolves, Next, Enabled;
    assert StepAt(states, events, i);
    var j: nat :| j < i + 1 && states[..i + 1][j] == snap;
    RunEvolves(states, events, j, i);
  }

  /** `Cancelled` is always exact: the task was alive, and this step cancelled it. */
  lemma CancelledIsExact(states: seq<Db>, events: seq<Event>, i: nat, after: Db, id: RunId, snap: Db)
    requires IsRun(states, events) && i < |events| && events[i].action == Cancel(id, snap)
    ensures CancelAnswer(states[i], snap, after, id) == CancelOutcome.Cancelled
            <==> id in states[i].runs && states[i + 1].runs != states[i].runs
    ensures CancelAnswer(states[i], snap, after, id) == CancelOutcome.Cancelled ==>
      && !Terminal(states[i].runs[id])
      && id in states[i + 1].runs && states[i + 1].runs[id].state == RunState.Cancelled
      && OpenAttempts(states[i + 1], id) == {}
  {
    hide Inv, Next, Enabled, Cancellable;
    assert StepAt(states, events, i);
    CancelStep(states[i], events[i], id, snap);
    if id in states[i + 1].runs {
      RunningIffOneOpenAttempt(states, events, i + 1, id);
    }
  }

  lemma CancelStep(db: Db, e: Event, id: RunId, snap: Db)
    requires e.action == Cancel(id, snap)
    ensures if Cancellable(db, snap, id)
            then id in db.runs && !Terminal(db.runs[id])
                 && id in Next(db, e).runs && Next(db, e).runs[id] == RowAfter(db.runs[id], Abort, e.now)
            else Next(db, e) == Advance(db, e.now)
  {
    if !Cancellable(db, snap, id) {
      PerformNothing(db, e.now);
    }
  }

  predicate Alive(db: Db, id: RunId) {
    id in db.runs && !Terminal(db.runs[id])
  }

  /** CANCEL at `db` passes over a task it should have ended, or that is not there yet. */
  predicate Missed(snap: Db, db: Db, id: RunId) {
    id in db.runs ==> !Terminal(db.runs[id]) && !SnapshotShows(snap, db, id)
  }

  /** A cancel that misses changes nothing; any other leaves the task ended or as it had ended. */
  lemma CancelHitsOrMisses(states: seq<Db>, events: seq<Event>, i: nat, id: RunId, snap: Db)
    requires IsRun(states, events) && i < |events| && events[i].action == Cancel(id, snap)
    ensures Cancellable(states[i], snap, id) <==> Alive(states[i], id) && !Missed(snap, states[i], id)
    ensures if Missed(snap, states[i], id) then states[i + 1] == Advance(states[i], events[i].now)
            else id in states[i + 1].runs && Terminal(states[i + 1].runs[id])
  {
    hide Inv, Evolves, Next, Enabled, AttemptRecorded;
    assert StepAt(states, events, i);
    SnapshotIsPast(states, events, i, snap);
    if id in states[i].runs && states[i].runs[id].state == RunState.Running {
      GuardIff(snap, states[i], id);
    }
    CancelStep(states[i], events[i], id, snap);
  }

  /**
   The EXISTS query of `cancel` reads a state of its own, at any time after CANCEL.
   `AlreadyTerminal` is wrong there, the task being alive, exactly when CANCEL missed
   it: it was not committed yet, or the snapshot predates it or its current claim.
   A cancel that did not miss leaves no later state in which the task is alive.
   */
  lemma AlreadyTerminalIsWrongIff(states: seq<Db>, events: seq<Event>, i: nat, j: nat, id: RunId, snap: Db)
    requires IsRun(states, events) && i < j < |states| && events[i].action == Cancel(id, snap)
    ensures CancelAnswer(states[i], snap, states[j], id) == AlreadyTerminal && Alive(states[j], id)
            <==> Missed(snap, states[i], id) && Alive(states[j], id)
    ensures !Missed(snap, states[i], id) ==> !Alive(states[j], id)
    ensures Alive(states[j], id) ==>
      (CancelAnswer(states[i], snap, states[j], id) == AlreadyTerminal
       <==> !(id in states[i].runs && SnapshotShows(snap, states[i], id)))
  {
    hide Inv, Next, Enabled, Cancellable, SnapshotShows;
    CancelHitsOrMisses(states, events, i, id, snap);
    if id in states[j].runs && !Missed(snap, states[i], id) {
      TerminalIsForever(states, events, i + 1, j, id);
    }
    if id in states[j].runs && id in states[i].runs && Terminal(states[i].runs[id]) {
      TerminalIsForever(states, events, i, j, id);
    }
  }

  /**
   With a current snapshot every answer about a task that is there is exact, whenever
   EXISTS reads.  About an id that is not there the answer is wrong exactly when its
   task is committed, for the first time, between CANCEL and EXISTS.
   */
  lemma CurrentSnapshotIsExact(states: seq<Db>, events: seq<Event>, i: nat, j: nat, id: RunId)
    requires IsRun(states, events) && i < j < |states| && events[i].action == Cancel(id, states[i])
    ensures id in states[i].runs ==>
      CancelAnswer(states[i], states[i], states[j], id) ==
      if !Terminal(states[i].runs[id]) then CancelOutcome.Cancelled
      else if id in states[j].runs then AlreadyTerminal
      else NotFound
    ensures id !in states[i].runs ==>
      CancelAnswer(states[i], states[i], states[j], id) ==
      if id in states[j].runs then AlreadyTerminal else NotFound
    ensures CancelAnswer(states[i], states[i], states[j], id) == AlreadyTerminal && Alive(states[j], id)
            <==> id !in states[i].created && Alive(states[j], id)
  {
    hide Inv, Next, Enabled, Cancellable, CancelAnswer;
    CancelHitsOrMisses(states, events, i, id, states[i]);
    AlreadyTerminalIsWrongIff(states, events, i, j, id, states[i]);
    CurrentSnapshotShows(states, events, i, id);
    CancelAnswerIs(states[i], states[i], states[j], id);
    RunInv(states, events, i);
    PresentWasCreated(states[i], id);
    if id in states[i].created && id !in states[i].runs {
      PrunedIsForever(states, events, i, j, id);
    }
  }

  lemma CancelAnswerIs(db: Db, snap: Db, after: Db, id: RunId)
    ensures CancelAnswer(db, snap, after, id) ==
      if Cancellable(db, snap, id) then CancelOutcome.Cancelled
      else if id in after.runs then AlreadyTerminal
      else NotFound
  {
  }

  lemma PresentWasCreated(db: Db, id: RunId)
    requires Inv(db)
    ensures id in db.runs ==> id in db.created
  {
  }

  lemma CurrentSnapshotShows(states: seq<Db>, events: seq<Event>, i: nat, id: RunId)
    requires IsRun(states, events) && i < |states|
    ensures id in states[i].runs ==> SnapshotShows(states[i], states[i], id)
  {
    RunInv(states, events, i);
    if id in states[i].runs && states[i].runs[id].state == RunState.Running {
      RunningHasOpenAttempt(states[i], id);
    }
  }

  /**
   Recovery of one overdue row: it is requeued or failed when the snapshot shows its
   attempt, and left exactly as it was, still overdue, when it does not.
   */
  lemma RecoverActsIff(states: seq<Db>, events: seq<Event>, i: nat, batch: set<RunId>, snap: Db, id: RunId)
    requires IsRun(states, events) && i < |events|
    requires events[i].action == Recover(batch, snap) && id in batch
    ensures id in states[i].runs && id in states[i + 1].runs
    ensures Inv(states[i]) && Inv(states[i + 1])
    ensures if Key(id, states[i].runs[id].attemptCount) in snap.attempts
            then View(states[i + 1], id) == ApplyMove(View(states[i], id), Expire, events[i].now)
            else View(states[i + 1], id) == View(states[i], id)
                 && Overdue(states[i + 1].runs[id], events[i].now)
  {
    assert StepAt(states, events, i);
    var db, e := states[i], events[i];
    assert Overdue(db.runs[id], e.now);
    SnapshotIsPast(states, events, i, snap);
    GuardIff(snap, db, id);
    RunInv(states, events, i + 1);
    LeaseStepRefines(db, e, id);
    assert MoveOf(Moves(db, e), id) == if AttemptRecorded(db, snap, id) then Expire else Stay;
  }

  /** Without the guard the row would leave its attempt open, and the invariant with it. */
  lemma GuardIsNeeded(db: Db, id: RunId, m: Move, now: Time)
    requires Inv(db) && id in db.runs && db.runs[id].state == RunState.Running
    requires m == Expire || m == Abort
    ensures !Inv(db.(runs := db.runs[id := RowAfter(db.runs[id], m, now)]))
  {
    RunningHasOpenAttempt(db, id);
    var b := db.(runs := db.runs[id := RowAfter(db.runs[id], m, now)]);
    assert b.runs[id].state != RunState.Running;
    hide Contiguous, TasksOk, TokensDistinct, RunsUnique, JobsOk, Accounted, RowAfter;
    if Inv(b) {
      OpenIsLast(b, Key(id, db.runs[id].attemptCount));
    }
  }

  // ---------------------------------------------------------------------------
  // A cancel blocked behind a claim
  // ---------------------------------------------------------------------------

  /**
   A task is enqueued; a cancel takes its snapshot and waits for the row, which a
   claim holds; when the claim commits, the cancel changes nothing and answers
   `AlreadyTerminal` although the task is running.
   */
  lemma CancelBehindClaim(spec: Spec)
    returns (states: seq<Db>, events: seq<Event>)
    requires SpecCheck(spec) && spec.dedupKey.None?
    ensures IsRun(states, events) && |events| == 3
    ensures events[2].action == Cancel(7, states[1])
    ensures CancelAnswer(states[2], states[1], states[3], 7) == AlreadyTerminal
    ensures 7 in states[3].runs && states[3].runs[7].state == RunState.Running
  {
    hide Next, IsRun;
    var e0 := Event(Enqueue(7, spec, None), 0, 0);
    var e1 := Event(Claim("w", map[7 := 1]), 0, 0);
    var s0 := Empty(0);
    var s1 := Next(s0, e0);
    var s2 := Next(s1, e1);
    var e2 := Event(Cancel(7, s1), 0, 0);
    var s3 := Next(s2, e2);
    states, events := [s0, s1, s2, s3], [e0, e1, e2];
    EnqueueFirst(spec, e0);
    ClaimFirst(s1, e1);
    assert Recorded(s2, s1, 1) == {};
    CancelStep(s2, e2, 7, s1);
    assert states[..3][1] == s1;
    ThreeStepRun(states, events);
  }

  /**
   CANCEL finds nothing, then the transaction that enqueued the task commits, then
   EXISTS finds it: `AlreadyTerminal` for a pending task, with a current snapshot.
   */
  lemma CancelBeforeCommit(spec: Spec)
    returns (states: seq<Db>, events: seq<Event>)
    requires SpecCheck(spec) && spec.dedupKey.None?
    ensures IsRun(states, events) && |events| == 2
    ensures events[0].action == Cancel(7, states[0])
    ensures CancelAnswer(states[0], states[0], states[2], 7) == AlreadyTerminal
    ensures 7 in states[2].runs && states[2].runs[7].state == RunState.Pending
  {
    hide Next, IsRun;
    var s0 := Empty(0);
    var e0, e1 := Event(Cancel(7, s0), 0, 0), Event(Enqueue(7, spec, None), 0, 0);
    CancelStep(s0, e0, 7, s0);
    EnqueueFirst(spec, e1);
    states, events := [s0, s0, Next(s0, e1)], [e0, e1];
    assert states[..1][0] == s0;
    TwoStepRun(states, events);
  }

  lemma EnqueueFirst(spec: Spec, e: Event)
    requires e == Event(Enqueue(7, spec, None), 0, 0) && spec.dedupKey.None?
    ensures var s := Next(Empty(0), e);
      && s.runs == map[7 := Newborn(EnqueuedSpec(spec, None, 0), 0)]
      && s.attempts == map[] && s.issued == {} && s.clock == 0
  {
  }

  lemma ClaimFirst(db: Db, e: Event)
    requires 7 in db.runs && e.action == Claim("w", map[7 := 1])
    ensures 7 in Next(db, e).runs && Next(db, e).runs[7] == RowAfter(db.runs[7], Start("w", 1), e.now)
    ensures Next(db, e).clock == e.now
  {
  }
}
