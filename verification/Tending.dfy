/**
 The heartbeat loop inside a run: the renewals of one worker, timed by its loop, among
 the transactions of everybody else.  The database counts whole microseconds, the loop
 nanoseconds.
 */
module Tending {
  import opened Rows
  import opened Lease
  import opened Tables
  import opened Protocol
  import opened Runs
  import opened Heartbeat

  /** When the renewal of round `m` reaches the database, if it does. */
  function TryOf(lease: nat, s: Heart, rounds: seq<Round>, m: nat): Instant
    requires m < |rounds|
  {
    TryAt(lease, Beats(lease, s, rounds[..m]), rounds[m])
  }

  /**
   Round `m` of the loop takes place among the events from `cuts[m]` up to
   `cuts[m + 1]`: the last of them is its renewal, at the instant the loop makes it, or
   it makes none.  Meanwhile nobody reports the end of the task or cancels it.
   */
  ghost predicate Placed(events: seq<Event>, cuts: seq<nat>, id: RunId, token: Token,
                         lease: nat, s: Heart, rounds: seq<Round>, m: nat)
    requires |cuts| == |rounds| + 1 && m < |rounds|
  {
    var a, b, reached := cuts[m], cuts[m + 1], rounds[m].delivery != NotReached;
    && a <= b <= |events|
    && (reached ==> a < b && MICROSECOND * events[b - 1].now == TryOf(lease, s, rounds, m))
    && forall n :: a <= n < b ==>
         && MICROSECOND * events[n].now <= TryOf(lease, s, rounds, m)
         && !TakesAway(events[n].action, id, token)
         && (events[n].action == Renew(id, token) <==> reached && n == b - 1)
  }

  /** The worker is still at it and the lease in the table has not expired at the try. */
  predicate InTime(lease: nat, s: Heart, rounds: seq<Round>, m: nat)
    requires m < |rounds|
  {
    !Beats(lease, s, rounds[..m]).lost && TryOf(lease, s, rounds, m) < Beats(lease, s, rounds[..m]).stored
  }

  /** The task is held with `token` and its deadline, in nanoseconds, is `stored`. */
  predicate HeldUntil(db: Db, id: RunId, token: Token, micros: nat, stored: Instant) {
    && Holds(db, id, token) && db.runs[id].spec.leaseDuration == micros
    && db.runs[id].leaseExpiresAt.Some? && 1000 * db.runs[id].leaseExpiresAt.value == stored
  }

  // ---------------------------------------------------------------------------
  // The table follows the loop
  // ---------------------------------------------------------------------------

  lemma {:induction false} NoBeatYet(events: seq<Event>, a: nat, n: nat, id: RunId, token: Token, start: Time)
    requires a <= n <= |events| && forall k :: a <= k < n ==> events[k].action != Renew(id, token)
    ensures LastBeat(events, a, n, id, token, start) == start
    decreases n
  {
    if a < n {
      NoBeatYet(events, a, n - 1, id, token, start);
    }
  }

  /** A round in time satisfies what a tended lease asks for. */
  lemma RoundIsTended(events: seq<Event>, cuts: seq<nat>, id: RunId, token: Token, micros: nat,
                      s: Heart, rounds: seq<Round>, m: nat, deadline: Time)
    requires |cuts| == |rounds| + 1 && m < |rounds|
    requires Placed(events, cuts, id, token, MICROSECOND * micros, s, rounds, m)
    requires InTime(MICROSECOND * micros, s, rounds, m)
    requires MICROSECOND * deadline == Beats(MICROSECOND * micros, s, rounds[..m]).stored
    ensures Tended(events, cuts[m], cuts[m + 1], id, token, deadline - micros, micros)
    ensures LastBeat(events, cuts[m], cuts[m + 1], id, token, deadline - micros) ==
            if rounds[m].delivery == NotReached then deadline - micros else events[cuts[m + 1] - 1].now
  {
    hide TryOf, Beats;
    var a, b, start := cuts[m], cuts[m + 1], deadline - micros;
    forall n | a <= n < b
      ensures LastBeat(events, a, n, id, token, start) == start
    {
      NoBeatYet(events, a, n, id, token, start);
    }
    if rounds[m].delivery == NotReached {
      NoBeatYet(events, a, b, id, token, start);
    }
  }

  lemma TableFollowsRound(states: seq<Db>, events: seq<Event>, cuts: seq<nat>, id: RunId, token: Token,
                          micros: nat, s: Heart, rounds: seq<Round>, m: nat)
    requires IsRun(states, events) && |cuts| == |rounds| + 1 && m < |rounds| && cuts[m] < |states|
    requires Placed(events, cuts, id, token, MICROSECOND * micros, s, rounds, m)
    requires InTime(MICROSECOND * micros, s, rounds, m)
    requires HeldUntil(states[cuts[m]], id, token, micros, Beats(MICROSECOND * micros, s, rounds[..m]).stored)
    ensures cuts[m + 1] < |states|
    ensures HeldUntil(states[cuts[m + 1]], id, token, micros, Beats(MICROSECOND * micros, s, rounds[..m + 1]).stored)
  {
    RunLength(states, events);
    hide IsRun, Tended, Beats, LastBeat;
    var deadline := states[cuts[m]].runs[id].leaseExpiresAt.value;
    RoundIsTended(events, cuts, id, token, micros, s, rounds, m, deadline);
    TendedLeaseIsKept(states, events, cuts[m], cuts[m + 1], id, token, deadline - micros);
    BeatsNext(MICROSECOND * micros, s, rounds, m);
  }

  /**
   While every round is in time, the table holds the lease through all interleavings,
   with exactly the deadline the loop's own account gives.
   */
  lemma {:induction false} TableFollowsHeart(states: seq<Db>, events: seq<Event>, cuts: seq<nat>, id: RunId,
                                             token: Token, micros: nat, s: Heart, rounds: seq<Round>, m: nat)
    requires IsRun(states, events) && |cuts| == |rounds| + 1 && m <= |rounds| && cuts[0] < |states|
    requires HeldUntil(states[cuts[0]], id, token, micros, s.stored)
    requires forall r :: 0 <= r < m ==>
      && Placed(events, cuts, id, token, MICROSECOND * micros, s, rounds, r)
      && InTime(MICROSECOND * micros, s, rounds, r)
    ensures cuts[m] < |states|
    ensures HeldUntil(states[cuts[m]], id, token, micros, Beats(MICROSECOND * micros, s, rounds[..m]).stored)
  {
    hide IsRun, HeldUntil, Placed, InTime;
    if m == 0 {
      assert rounds[..0] == [];
    } else {
      TableFollowsHeart(states, events, cuts, id, token, micros, s, rounds, m - 1);
      TableFollowsRound(states, events, cuts, id, token, micros, s, rounds, m - 1);
    }
  }

  lemma BeatsNext(lease: nat, s: Heart, rounds: seq<Round>, m: nat)
    requires m < |rounds|
    ensures Beats(lease, s, rounds[..m + 1]) == Beat(lease, Beats(lease, s, rounds[..m]), rounds[m])
  {
    assert rounds[..m + 1][..m] == rounds[..m];
  }

  // ---------------------------------------------------------------------------
  // Rounds that are always in time
  // ---------------------------------------------------------------------------

  lemma ShortRoundIsInTime(lease: nat, committed: Instant, lag: nat, rounds: seq<Round>, m: nat)
    requires m < |rounds| && forall i :: 0 <= i < |rounds| ==> ShortRound(lease, lag, rounds, i)
    ensures InTime(lease, Fresh(lease, committed, lag), rounds, m)
  {
    var front := rounds[..m];
    forall i | 0 <= i < m
      ensures ShortRound(lease, lag, front, i)
    {
      assert ShortRound(lease, lag, rounds, i);
      assert LagOf(lag, front, i) == LagOf(lag, rounds, i);
    }
    ShortRoundsKeepLease(lease, committed, lag, front);
    assert ShortRound(lease, lag, rounds, m);
    assert LagOf(lag, front, m) == LagOf(lag, rounds, m);
  }

  lemma GentleRoundIsInTime(micros: nat, committed: Instant, lag: nat, rounds: seq<Round>, m: nat)
    requires micros >= 1 && m < |rounds| && Gentle(MICROSECOND * micros, lag, rounds)
    ensures InTime(MICROSECOND * micros, Fresh(MICROSECOND * micros, committed, lag), rounds, m)
  {
    var lease, front := MICROSECOND * micros, rounds[..m];
    forall i | 0 <= i < m
      ensures GentleRound(lease, lag, front, i)
    {
      assert GentleRound(lease, lag, rounds, i);
      assert LagOf(lag, front, i) == LagOf(lag, rounds, i);
      assert i > 0 ==> LagOf(lag, front, i - 1) == LagOf(lag, rounds, i - 1);
    }
    GentleRoundsKeepLease(micros, committed, lag, front);
    IntervalIsAThird(micros);
    assert GentleRound(lease, lag, rounds, m);
    assert LagOf(lag, front, m) == LagOf(lag, rounds, m);
    assert m > 0 ==> front[m - 1] == rounds[m - 1] && LagOf(lag, front, m - 1) == LagOf(lag, rounds, m - 1);
  }

  ghost predicate AllPlaced(events: seq<Event>, cuts: seq<nat>, id: RunId, token: Token,
                            lease: nat, s: Heart, rounds: seq<Round>) {
    && |cuts| == |rounds| + 1
    && forall m :: 0 <= m < |rounds| ==> Placed(events, cuts, id, token, lease, s, rounds, m)
  }

  /**
   A worker whose every heartbeat round is shorter than its lease keeps it in the
   database, whatever all other actors do in between.
   */
  lemma ShortHeartKeepsLease(states: seq<Db>, events: seq<Event>, cuts: seq<nat>, id: RunId, token: Token,
                             micros: nat, committed: Instant, lag: nat, rounds: seq<Round>)
    requires var lease := MICROSECOND * micros; var s := Fresh(lease, committed, lag);
      && IsRun(states, events) && AllPlaced(events, cuts, id, token, lease, s, rounds)
      && cuts[0] < |states| && HeldUntil(states[cuts[0]], id, token, micros, s.stored)
      && forall i :: 0 <= i < |rounds| ==> ShortRound(lease, lag, rounds, i)
    ensures var end := Beats(MICROSECOND * micros, Fresh(MICROSECOND * micros, committed, lag), rounds);
      && !end.lost && cuts[|rounds|] < |states|
      && HeldUntil(states[cuts[|rounds|]], id, token, micros, end.stored) && end.believed == end.stored
  {
    hide IsRun, HeldUntil, Placed, ShortRound;
    var lease := MICROSECOND * micros;
    forall m | 0 <= m < |rounds|
      ensures InTime(lease, Fresh(lease, committed, lag), rounds, m)
    {
      ShortRoundIsInTime(lease, committed, lag, rounds, m);
    }
    ShortRoundsKeepLease(lease, committed, lag, rounds);
    assert rounds[..|rounds|] == rounds;
    TableFollowsHeart(states, events, cuts, id, token, micros, Fresh(lease, committed, lag), rounds, |rounds|);
  }

  /** The same where isolated renewals fail or go unheard, if latencies are small. */
  lemma GentleHeartKeepsLease(states: seq<Db>, events: seq<Event>, cuts: seq<nat>, id: RunId, token: Token,
                              micros: nat, committed: Instant, lag: nat, rounds: seq<Round>)
    requires var lease := MICROSECOND * micros; var s := Fresh(lease, committed, lag);
      && IsRun(states, events) && AllPlaced(events, cuts, id, token, lease, s, rounds)
      && cuts[0] < |states| && HeldUntil(states[cuts[0]], id, token, micros, s.stored)
      && micros >= 1 && Gentle(lease, lag, rounds)
    ensures var end := Beats(MICROSECOND * micros, Fresh(MICROSECOND * micros, committed, lag), rounds);
      && !end.lost && cuts[|rounds|] < |states|
      && HeldUntil(states[cuts[|rounds|]], id, token, micros, end.stored) && end.believed <= end.stored
  {
    hide IsRun, HeldUntil, Placed, Gentle;
    var lease := MICROSECOND * micros;
    forall m | 0 <= m < |rounds|
      ensures InTime(lease, Fresh(lease, committed, lag), rounds, m)
    {
      GentleRoundIsInTime(micros, committed, lag, rounds, m);
    }
    GentleRoundsKeepLease(micros, committed, lag, rounds);
    assert rounds[..|rounds|] == rounds;
    TableFollowsHeart(states, events, cuts, id, token, micros, Fresh(lease, committed, lag), rounds, |rounds|);
  }
}
