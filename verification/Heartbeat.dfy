/**
 The heartbeat loop of `dispatch`, timed in nanoseconds on one clock.

 A round sleeps for the heartbeat interval, spends `before` until the renewal reaches
 the database (if it does) and `after` until the worker has dealt with the outcome.
 Nothing else ends the task meanwhile; what other actors may do is in `Runs`.
 */
module Heartbeat {

  type Instant = int

  /** Delivery of one renewal: no connection or error, response lost, or heard. */
  datatype Delivery = NotReached | ResponseLost | Heard

  datatype Round = Round(before: nat, after: nat, delivery: Delivery)

  /** `stored` is the deadline in the table, `believed` the one the worker has heard of. */
  datatype Heart = Heart(stored: Instant, believed: Instant, at: Instant, lost: bool)

  const MICROSECOND: nat := 1000

  function HeartbeatInterval(lease: nat): nat {
    var third := lease / 3;
    if third == 0 then MICROSECOND else third
  }

  /** Every accepted lease is whole microseconds, so the interval is a true third of it. */
  lemma IntervalIsAThird(micros: nat)
    requires micros >= 1
    ensures forall lease: nat :: lease < 3 ==> HeartbeatInterval(lease) == 1000
    ensures var lease := micros * 1000; var h := HeartbeatInterval(lease);
      0 < h && 3 * h <= lease < 3 * h + 3
  {
  }

  // ---------------------------------------------------------------------------
  // One round and many
  // ---------------------------------------------------------------------------

  /** When the renewal of this round reaches the database. */
  function TryAt(lease: nat, s: Heart, r: Round): Instant {
    s.at + HeartbeatInterval(lease) + r.before
  }

  function Beat(lease: nat, s: Heart, r: Round): Heart {
    var try := TryAt(lease, s, r);
    var end := try + r.after;
    if s.lost then s
    else if r.delivery == NotReached then s.(at := end, lost := end >= s.believed)
    else if s.stored > try then
      var believed := if r.delivery == Heard then try + lease else s.believed;
      Heart(try + lease, believed, end, end >= believed)
    else s.(at := end, lost := r.delivery == Heard || end >= s.believed)
  }

  function Beats(lease: nat, s: Heart, rounds: seq<Round>): Heart {
    if rounds == [] then s
    else Beat(lease, Beats(lease, s, rounds[..|rounds| - 1]), rounds[|rounds| - 1])
  }

  lemma {:induction false} LostStaysLost(lease: nat, s: Heart, rounds: seq<Round>)
    requires s.lost
    ensures Beats(lease, s, rounds) == s
  {
    if rounds != [] {
      LostStaysLost(lease, s, rounds[..|rounds| - 1]);
    }
  }

  lemma {:induction false} BeatsAppend(lease: nat, s: Heart, xs: seq<Round>, ys: seq<Round>)
    ensures Beats(lease, s, xs + ys) == Beats(lease, Beats(lease, s, xs), ys)
  {
    if ys == [] {
      assert xs + ys == xs;
    } else {
      var n := |ys| - 1;
      assert (xs + ys)[..|xs + ys| - 1] == xs + ys[..n];
      BeatsAppend(lease, s, xs, ys[..n]);
    }
  }

  /** The loop of `dispatch`: `lease_expires_at` and the clock are its variables. */
  method Dispatch(lease: nat, start: Heart, rounds: seq<Round>) returns (end: Heart, used: nat)
    requires !start.lost
    ensures used <= |rounds| && end == Beats(lease, start, rounds[..used]) == Beats(lease, start, rounds)
    ensures used < |rounds| ==> end.lost
  {
    var stored, leaseExpiresAt, at := start.stored, start.believed, start.at;
    var lost := false;
    used := 0;
    assert rounds[..0] == [];
    while used < |rounds| && !lost
      invariant used <= |rounds|
      invariant Heart(stored, leaseExpiresAt, at, lost) == Beats(lease, start, rounds[..used])
    {
      var r := rounds[used];
      assert rounds[..used + 1][..used] == rounds[..used];
      var try := at + HeartbeatInterval(lease) + r.before;
      at := try + r.after;
      if r.delivery != NotReached {
        if stored > try {
          stored := try + lease;
          if r.delivery == Heard {
            leaseExpiresAt := stored;
          }
        } else if r.delivery == Heard {
          lost := true;
        }
      }
      if at >= leaseExpiresAt {
        lost := true;
      }
      used := used + 1;
    }
    end := Heart(stored, leaseExpiresAt, at, lost);
    assert rounds == rounds[..used] + rounds[used..];
    BeatsAppend(lease, start, rounds[..used], rounds[used..]);
    if lost {
      LostStaysLost(lease, end, rounds[used..]);
    } else {
      assert rounds[used..] == [];
    }
  }

  // ---------------------------------------------------------------------------
  // What the worker believes
  // ---------------------------------------------------------------------------

  /** However many responses are lost, the worker never trusts the lease longer than the table. */
  lemma {:induction false} BelievedNeverExceedsStored(lease: nat, s: Heart, rounds: seq<Round>)
    requires s.believed <= s.stored && s.stored <= s.at + lease
    ensures Beats(lease, s, rounds).believed <= Beats(lease, s, rounds).stored <= Beats(lease, s, rounds).at + lease
  {
    if rounds != [] {
      BelievedNeverExceedsStored(lease, s, rounds[..|rounds| - 1]);
    }
  }

  // ---------------------------------------------------------------------------
  // The n-th try since the last success
  // ---------------------------------------------------------------------------

  function Latency(rounds: seq<Round>): nat {
    if rounds == [] then 0
    else Latency(rounds[..|rounds| - 1]) + rounds[|rounds| - 1].before + rounds[|rounds| - 1].after
  }

  /** Rounds from which the worker hears nothing, whether or not their renewal commits. */
  ghost predicate Failed(rounds: seq<Round>) {
    forall i :: 0 <= i < |rounds| ==> rounds[i].delivery != Heard
  }

  /** When `rounds` are over, if the worker is still at it. */
  function EndOf(lease: nat, s: Heart, rounds: seq<Round>): Instant {
    s.at + |rounds| * HeartbeatInterval(lease) + Latency(rounds)
  }

  /** The deadline the last renewal that reached the database in `rounds` has set, if any did. */
  function LastCommit(lease: nat, s: Heart, rounds: seq<Round>): Instant {
    if rounds == [] then s.stored
    else
      var n := |rounds| - 1;
      if rounds[n].delivery == NotReached then LastCommit(lease, s, rounds[..n])
      else EndOf(lease, s, rounds[..n]) + HeartbeatInterval(lease) + rounds[n].before + lease
  }

  lemma EndOfNext(lease: nat, s: Heart, rounds: seq<Round>)
    requires rounds != []
    ensures var n := |rounds| - 1;
      EndOf(lease, s, rounds) ==
      EndOf(lease, s, rounds[..n]) + HeartbeatInterval(lease) + rounds[n].before + rounds[n].after
  {
    var h := HeartbeatInterval(lease);
    assert |rounds| * h == (|rounds| - 1) * h + h;
  }

  /**
   A worker that hears nothing gives up exactly once the deadline it knows has passed;
   until then every renewal of its that reaches the database commits.
   */
  lemma {:induction false} Unheard(lease: nat, s: Heart, rounds: seq<Round>)
    requires !s.lost && s.believed <= s.stored <= s.at + lease && Failed(rounds)
    ensures var e := Beats(lease, s, rounds);
      if rounds != [] && EndOf(lease, s, rounds) >= s.believed then e.lost
      else e == Heart(LastCommit(lease, s, rounds), s.believed, EndOf(lease, s, rounds), false)
           && s.believed <= e.stored <= e.at + lease
  {
    if rounds != [] {
      Unheard(lease, s, rounds[..|rounds| - 1]);
      EndOfNext(lease, s, rounds);
      hide EndOf, HeartbeatInterval;
    }
  }

  lemma BeatsOne(lease: nat, s: Heart, rounds: seq<Round>, r: Round)
    ensures Beats(lease, s, rounds + [r]) == Beat(lease, Beats(lease, s, rounds), r)
  {
    assert (rounds + [r])[..|rounds|] == rounds;
  }

  /**
   After any failed rounds, some of whose renewals may have committed unheard, the next
   try keeps the lease exactly when the worker had not given up and the try comes before
   the deadline of the last renewal that committed.
   */
  lemma NthTryInTimeIff(lease: nat, s: Heart, failed: seq<Round>, r: Round)
    requires !s.lost && s.believed <= s.stored <= s.at + lease && Failed(failed)
    requires r.delivery == Heard && r.after < lease
    ensures !Beats(lease, s, failed + [r]).lost <==>
      && (failed != [] ==> EndOf(lease, s, failed) < s.believed)
      && EndOf(lease, s, failed) + HeartbeatInterval(lease) + r.before < LastCommit(lease, s, failed)
  {
    Unheard(lease, s, failed);
    BeatsOne(lease, s, failed, r);
    hide EndOf, HeartbeatInterval, LastCommit, Beats;
  }

  lemma {:induction false} NothingCommits(lease: nat, s: Heart, rounds: seq<Round>)
    requires forall i :: 0 <= i < |rounds| ==> rounds[i].delivery == NotReached
    ensures LastCommit(lease, s, rounds) == s.stored
  {
    if rounds != [] {
      NothingCommits(lease, s, rounds[..|rounds| - 1]);
    }
  }

  /** The heart right after a renewal committed at `committed` was heard `lag` later. */
  function Fresh(lease: nat, committed: Instant, lag: nat): Heart {
    Heart(committed + lease, committed + lease, committed + lag, false)
  }

  /**
   If since the last renewal that committed, which was heard, `n - 1` rounds did not
   reach the database, the n-th try keeps the lease exactly when n intervals and all
   latencies so far are shorter than the lease.
   */
  lemma NthTrySinceCommitIff(lease: nat, committed: Instant, lag: nat, failed: seq<Round>, r: Round)
    requires forall i :: 0 <= i < |failed| ==> failed[i].delivery == NotReached
    requires r.delivery == Heard && r.after < lease
    ensures var n, h := |failed| + 1, HeartbeatInterval(lease);
      n * h + lag + Latency(failed) + r.before < lease
      <==> !Beats(lease, Fresh(lease, committed, lag), failed + [r]).lost
  {
    NthTryInTimeIff(lease, Fresh(lease, committed, lag), failed, r);
    NothingCommits(lease, Fresh(lease, committed, lag), failed);
    hide HeartbeatInterval, Beats, Latency;
    var h := HeartbeatInterval(lease);
    assert (|failed| + 1) * h == |failed| * h + h;
  }

  /**
   If the last renewal that committed went unheard, the n-th try after it keeps the
   lease exactly when it comes within a lease of that commit and the worker, which
   trusts the deadline it heard of before, had not given up by then.
   */
  lemma NthTrySinceUnheardIff(lease: nat, s: Heart, u: Round, failed: seq<Round>, r: Round)
    requires !s.lost && s.believed <= s.stored <= s.at + lease && u.delivery == ResponseLost
    requires forall i :: 0 <= i < |failed| ==> failed[i].delivery == NotReached
    requires r.delivery == Heard && r.after < lease
    ensures var n, h := |failed| + 1, HeartbeatInterval(lease);
      !Beats(lease, s, [u] + failed + [r]).lost
      <==> n * h + u.after + Latency(failed) + r.before < lease
           && TryAt(lease, s, u) + u.after + |failed| * h + Latency(failed) < s.believed
  {
    var h := HeartbeatInterval(lease);
    var rounds := [u] + failed;
    NthTryInTimeIff(lease, s, rounds, r);
    UnheardFirst(lease, s, u, failed);
    hide HeartbeatInterval, Beats, Latency, LastCommit;
    assert (|failed| + 1) * h == |failed| * h + h;
  }

  lemma {:induction false} UnheardFirst(lease: nat, s: Heart, u: Round, failed: seq<Round>)
    requires u.delivery == ResponseLost
    requires forall i :: 0 <= i < |failed| ==> failed[i].delivery == NotReached
    ensures Latency([u] + failed) == u.before + u.after + Latency(failed)
    ensures LastCommit(lease, s, [u] + failed) == TryAt(lease, s, u) + lease
  {
    if failed != [] {
      var n := |failed| - 1;
      UnheardFirst(lease, s, u, failed[..n]);
      assert ([u] + failed)[..|failed|] == [u] + failed[..n];
    }
  }

  // ---------------------------------------------------------------------------
  // Leaving the loop
  // ---------------------------------------------------------------------------

  lemma {:induction false} StaysOnlyInTime(lease: nat, s: Heart, rounds: seq<Round>)
    requires !s.lost && s.at < s.believed <= s.stored <= s.at + lease
    ensures var e := Beats(lease, s, rounds);
      e.believed <= e.stored <= e.at + lease && (!e.lost ==> e.at < e.believed)
  {
    if rounds != [] {
      StaysOnlyInTime(lease, s, rounds[..|rounds| - 1]);
    }
  }

  /**
   A worker that loses its lease leaves the loop in some round `m`, no later than the
   deadline it last believed in, plus one interval and the latencies of that round.
   */
  lemma {:induction false} LeavesLoopBy(lease: nat, s: Heart, rounds: seq<Round>) returns (m: nat)
    requires !s.lost && s.at < s.believed <= s.stored <= s.at + lease && Beats(lease, s, rounds).lost
    ensures m < |rounds| && !Beats(lease, s, rounds[..m]).lost
    ensures Beats(lease, s, rounds) == Beats(lease, s, rounds[..m + 1])
    ensures var e := Beats(lease, s, rounds);
      e.at < e.believed + HeartbeatInterval(lease) + rounds[m].before + rounds[m].after
  {
    var n := |rounds| - 1;
    var front := rounds[..n];
    StaysOnlyInTime(lease, s, front);
    if Beats(lease, s, front).lost {
      m := LeavesLoopBy(lease, s, front);
      assert front[..m] == rounds[..m] && front[..m + 1] == rounds[..m + 1];
    } else {
      m := n;
      assert rounds[..m + 1] == rounds;
    }
  }

  // ---------------------------------------------------------------------------
  // Leases that are never lost
  // ---------------------------------------------------------------------------

  /** How long before the sleep of round `i` the previous outcome was decided. */
  function LagOf(lag: nat, rounds: seq<Round>, i: nat): nat
    requires i <= |rounds|
  {
    if i == 0 then lag else rounds[i - 1].after
  }

  predicate ShortRound(lease: nat, lag: nat, rounds: seq<Round>, i: nat)
    requires i < |rounds|
  {
    && rounds[i].delivery == Heard && rounds[i].after < lease
    && LagOf(lag, rounds, i) + HeartbeatInterval(lease) + rounds[i].before < lease
  }

  /** A handler whose every round is shorter than its lease never loses it. */
  lemma {:induction false} ShortRoundsKeepLease(lease: nat, committed: Instant, lag: nat, rounds: seq<Round>)
    requires forall i :: 0 <= i < |rounds| ==> ShortRound(lease, lag, rounds, i)
    ensures var e := Beats(lease, Fresh(lease, committed, lag), rounds);
      !e.lost && e.stored == e.believed == e.at - LagOf(lag, rounds, |rounds|) + lease
  {
    if rounds != [] {
      var n := |rounds| - 1;
      var front := rounds[..n];
      forall i | 0 <= i < n
        ensures ShortRound(lease, lag, front, i)
      {
        assert ShortRound(lease, lag, rounds, i);
        assert LagOf(lag, front, i) == LagOf(lag, rounds, i);
      }
      ShortRoundsKeepLease(lease, committed, lag, front);
      assert ShortRound(lease, lag, rounds, n);
      assert LagOf(lag, front, n) == LagOf(lag, rounds, n);
    }
  }

  /** Round `i` and the one before it do not both fail, and their latencies are small. */
  predicate GentleRound(lease: nat, lag: nat, rounds: seq<Round>, i: nat)
    requires i < |rounds|
  {
    && 3 * (LagOf(lag, rounds, i) + rounds[i].before + rounds[i].after) < lease
    && (i > 0 ==>
          && (rounds[i - 1].delivery == Heard || rounds[i].delivery == Heard)
          && 3 * (LagOf(lag, rounds, i - 1) + rounds[i - 1].before + rounds[i - 1].after
                  + rounds[i].before + rounds[i].after) < lease)
  }

  ghost predicate Gentle(lease: nat, lag: nat, rounds: seq<Round>) {
    forall i :: 0 <= i < |rounds| ==> GentleRound(lease, lag, rounds, i)
  }

  /**
   Where the heart stands after each round: either the last renewal was heard, or one
   was missed and the one before it was heard.
   */
  predicate Steady(lease: nat, e: Heart, lag: nat, rounds: seq<Round>) {
    var n := |rounds|;
    && !e.lost && e.believed <= e.stored
    && e.at == e.believed - lease +
               if n == 0 || rounds[n - 1].delivery == Heard then LagOf(lag, rounds, n)
               else LagOf(lag, rounds, n - 1) + HeartbeatInterval(lease) + rounds[n - 1].before + rounds[n - 1].after
  }

  lemma GentlePrefix(lease: nat, lag: nat, rounds: seq<Round>)
    requires Gentle(lease, lag, rounds) && rounds != []
    ensures Gentle(lease, lag, rounds[..|rounds| - 1])
  {
    var front := rounds[..|rounds| - 1];
    forall i | 0 <= i < |front|
      ensures GentleRound(lease, lag, front, i)
    {
      assert GentleRound(lease, lag, rounds, i);
      assert LagOf(lag, front, i) == LagOf(lag, rounds, i);
      assert i > 0 ==> LagOf(lag, front, i - 1) == LagOf(lag, rounds, i - 1);
    }
  }

  /** One failed round after a success is survived, as often as it happens. */
  lemma {:induction false} GentleRoundsKeepLease(micros: nat, committed: Instant, lag: nat, rounds: seq<Round>)
    requires micros >= 1 && Gentle(micros * MICROSECOND, lag, rounds)
    ensures var lease := micros * MICROSECOND;
      Steady(lease, Beats(lease, Fresh(lease, committed, lag), rounds), lag, rounds)
  {
    if rounds != [] {
      var lease, n := micros * MICROSECOND, |rounds| - 1;
      GentlePrefix(lease, lag, rounds);
      GentleRoundsKeepLease(micros, committed, lag, rounds[..n]);
      IntervalIsAThird(micros);
      GentleStep(lease, Beats(lease, Fresh(lease, committed, lag), rounds[..n]), lag, rounds);
    }
  }

  lemma GentleStep(lease: nat, s: Heart, lag: nat, rounds: seq<Round>)
    requires rounds != [] && GentleRound(lease, lag, rounds, |rounds| - 1) && 3 * HeartbeatInterval(lease) <= lease
    requires Steady(lease, s, lag, rounds[..|rounds| - 1])
    ensures Steady(lease, Beat(lease, s, rounds[|rounds| - 1]), lag, rounds)
  {
    hide HeartbeatInterval;
    var n := |rounds| - 1;
    var front := rounds[..n];
    assert LagOf(lag, front, n) == LagOf(lag, rounds, n);
    assert n > 0 ==> front[n - 1] == rounds[n - 1] && LagOf(lag, front, n - 1) == LagOf(lag, rounds, n - 1);
  }
}
