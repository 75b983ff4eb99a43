/**
 Workers that hold claims, including stalled and dead ones: what a worker believes
 about its lease, against what the database says.
 */
module Holders {
  import opened Rows
  import opened Lease
  import opened Tables
  import opened Protocol
  import opened Runs
  import opened Heartbeat
  import Statements

  datatype Holder = Holder(run: RunId, token: Token, believed: Time)

  /** The answer to a renewal, on its way to the holder in `slot`. */
  datatype Reply = Renewed(slot: nat, holder: Holder) | Refused(slot: nat, token: Token)

  /**
   The database, every claim some worker still thinks it has, and the responses that
   are on their way: claims granted and renewals answered.
   */
  datatype World = World(db: Db, held: map<nat, Holder>, grants: map<nat, Holder>, replies: map<nat, Reply>)

  datatype Act =
    | Unheard(e: Event)
    | ClaimSent(e: Event, letters: map<RunId, nat>)
    | RenewSent(e: Event, slot: nat, letter: nat)
    | GrantHeard(letter: nat, slot: nat)
    | ReplyHeard(letter: nat)
    | Forget(slot: nat)

  function NewGrants(db: Db, e: Event, letters: map<RunId, nat>): map<nat, Holder>
    requires e.action.Claim?
    requires forall i, j | i in letters && j in letters :: letters[i] == letters[j] ==> i == j
  {
    map id | id in letters && id in e.action.picked && id in db.runs ::
      letters[id] := Holder(id, e.action.picked[id], e.now + db.runs[id].spec.leaseDuration)
  }

  /** What `renew_lease` answers, addressed to the holder that asked. */
  function ReplyTo(db: Db, e: Event, slot: nat, h: Holder): Reply {
    match Statements.RenewAnswer(db, h.run, h.token, e.now)
    case Renewed(deadline) => Renewed(slot, h.(believed := deadline))
    case Fenced => Refused(slot, h.token)
  }

  /** A reply counts only for the holder that asked: others may sit in the slot by now. */
  function Hear(held: map<nat, Holder>, r: Reply): map<nat, Holder> {
    match r
    case Renewed(slot, h) => if slot in held && held[slot].token == h.token then held[slot := h] else held
    case Refused(slot, token) => if slot in held && held[slot].token == token then held - {slot} else held
  }

  /**
   Transactions commit at their event; their responses arrive at any later act, in any
   order, or never.
   */
  function WorldNext(w: World, a: Act): World
    requires WorldEnabled(w, a)
  {
    match a
    case Unheard(e) => w.(db := Next(w.db, e))
    case ClaimSent(e, letters) => w.(db := Next(w.db, e), grants := w.grants + NewGrants(w.db, e, letters))
    case RenewSent(e, slot, letter) =>
      w.(db := Next(w.db, e), replies := w.replies[letter := ReplyTo(w.db, e, slot, w.held[slot])])
    case GrantHeard(letter, slot) =>
      w.(held := w.held[slot := w.grants[letter]], grants := w.grants - {letter})
    case ReplyHeard(letter) =>
      w.(held := Hear(w.held, w.replies[letter]), replies := w.replies - {letter})
    case Forget(slot) => w.(held := w.held - {slot})
  }

  ghost predicate WorldEnabled(w: World, a: Act) {
    match a
    case Unheard(e) => Enabled(w.db, e)
    case ClaimSent(e, letters) =>
      && Enabled(w.db, e) && e.action.Claim?
      && letters.Keys <= e.action.picked.Keys && letters.Values !! w.grants.Keys
      && forall i, j | i in letters && j in letters :: letters[i] == letters[j] ==> i == j
    case RenewSent(e, slot, letter) =>
      && Enabled(w.db, e) && letter !in w.replies
      && slot in w.held && e.action == Renew(w.held[slot].run, w.held[slot].token)
    case GrantHeard(letter, slot) => letter in w.grants && slot !in w.held
    case ReplyHeard(letter) => letter in w.replies
    case Forget(_) => true
  }

  /**
   A holder's token was issued, to an attempt of its task, and it never trusts a later
   deadline than that attempt has, open or closed.
   */
  ghost predicate HolderOk(db: Db, h: Holder) {
    && h.token in db.issued
    && forall k :: k in db.attempts && db.attempts[k].leaseToken == h.token ==>
         k.run == h.run && h.believed <= db.attempts[k].leaseExpiresAt
  }

  ghost predicate ReplyOk(db: Db, r: Reply) {
    r.Renewed? ==> HolderOk(db, r.holder)
  }

  /** No token is held twice, granted twice, or both. */
  ghost predicate TokensApart(held: map<nat, Holder>, grants: map<nat, Holder>) {
    && (forall s, t | s in held && t in held :: held[s].token == held[t].token ==> s == t)
    && (forall s, t | s in grants && t in grants :: grants[s].token == grants[t].token ==> s == t)
    && (forall s, t | s in held && t in grants :: held[s].token != grants[t].token)
  }

  ghost predicate WorldInv(w: World) {
    && Inv(w.db)
    && (forall s :: s in w.held ==> HolderOk(w.db, w.held[s]))
    && (forall l :: l in w.grants ==> HolderOk(w.db, w.grants[l]))
    && (forall l :: l in w.replies ==> ReplyOk(w.db, w.replies[l]))
    && TokensApart(w.held, w.grants)
  }

  // ---------------------------------------------------------------------------
  // Every act keeps the beliefs sound
  // ---------------------------------------------------------------------------

  /** An attempt with a token issued before was there before, with no later deadline. */
  lemma AttemptWasThere(a: Db, b: Db, k: Key)
    requires Inv(a) && Inv(b) && Evolves(a, b)
    requires k in b.attempts && b.attempts[k].leaseToken in a.issued
    ensures k in a.attempts && a.attempts[k].leaseToken == b.attempts[k].leaseToken
    ensures a.attempts[k].leaseExpiresAt <= b.attempts[k].leaseExpiresAt
  {
    hide TasksOk, TokensDistinct, RunsUnique, JobsOk, Accounted, TaskOk;
    AttemptIsLogEntry(b, k);
    assert k.run in a.runs;
    var t, u, n := View(a, k.run), View(b, k.run), k.number - 1;
    AttemptsEvolve(t, u, a.clock, a.issued, n);
    AttemptIsLogEntry(a, k);
    assert AttemptEvolves(t.log[n], u.log[n], a.clock);
  }

  lemma HolderStays(db: Db, e: Event, h: Holder)
    requires Inv(db) && Enabled(db, e) && HolderOk(db, h)
    ensures HolderOk(Next(db, e), h)
  {
    hide Inv, Next, Enabled, Evolves;
    StepKeeps(db, e);
    forall k | k in Next(db, e).attempts && Next(db, e).attempts[k].leaseToken == h.token
      ensures k.run == h.run && h.believed <= Next(db, e).attempts[k].leaseExpiresAt
    {
      AttemptWasThere(db, Next(db, e), k);
    }
    IssuedGrows(db, e);
  }

  lemma IssuedGrows(db: Db, e: Event)
    requires Inv(db) && Enabled(db, e)
    ensures db.issued <= Next(db, e).issued
  {
    hide Inv, Next, Enabled, TaskEvolves, Contiguous;
    StepKeeps(db, e);
  }

  /** Whoever holds a task with its current deadline, or an earlier one, is sound. */
  lemma CurrentHolderOk(db: Db, h: Holder)
    requires Inv(db) && Holds(db, h.run, h.token) && db.runs[h.run].leaseExpiresAt.Some?
    requires h.believed <= db.runs[h.run].leaseExpiresAt.value
    ensures HolderOk(db, h)
  {
    RunningHasOpenAttempt(db, h.run);
    hide TasksOk, RunsUnique, JobsOk, Accounted, Contiguous;
    assert forall k :: k in db.attempts && db.attempts[k].leaseToken == h.token ==>
        k == Key(h.run, db.runs[h.run].attemptCount);
  }

  /** While the token is current the believed deadline is not past the stored one. */
  lemma HolderTrusts(db: Db, h: Holder)
    requires Inv(db) && HolderOk(db, h) && Holds(db, h.run, h.token)
    ensures db.runs[h.run].leaseExpiresAt.Some? && h.believed <= db.runs[h.run].leaseExpiresAt.value
  {
    RunningHasOpenAttempt(db, h.run);
  }

  lemma ClaimMakesHolder(db: Db, e: Event, id: RunId)
    requires Inv(db) && Enabled(db, e) && e.action.Claim? && id in e.action.picked
    ensures id in db.runs && e.action.picked[id] !in db.issued
    ensures HolderOk(Next(db, e), Holder(id, e.action.picked[id], e.now + db.runs[id].spec.leaseDuration))
  {
    ClaimStarts(db, e, id);
    hide Inv, Next, HolderOk;
    StepKeeps(db, e);
    CurrentHolderOk(Next(db, e), Holder(id, e.action.picked[id], e.now + db.runs[id].spec.leaseDuration));
  }

  /** The deadline a renewal answers is one its holder may believe in. */
  lemma RenewRefreshes(db: Db, e: Event, h: Holder, deadline: Time)
    requires Inv(db) && Enabled(db, e) && e.action == Renew(h.run, h.token)
    requires Statements.RenewAnswer(db, h.run, h.token, e.now) == Statements.Renewed(deadline)
    ensures HolderOk(Next(db, e), h.(believed := deadline))
  {
    hide Inv, Next, Enabled, HolderOk, Evolves, Statements.RenewAnswer;
    StepKeeps(db, e);
    Statements.RenewAnswerIff(db, e, h.run, h.token, deadline);
    CurrentHolderOk(Next(db, e), h.(believed := deadline));
  }

  lemma NewGrantsOk(w: World, e: Event, letters: map<RunId, nat>)
    requires WorldInv(w) && WorldEnabled(w, ClaimSent(e, letters))
    ensures var news := NewGrants(w.db, e, letters);
      && (forall l :: l in news ==>
            HolderOk(Next(w.db, e), news[l]) && news[l].token !in w.db.issued && l !in w.grants)
      && (forall l, m | l in news && m in news :: news[l].token == news[m].token ==> l == m)
  {
    PickedDistinct(w.db, e);
    hide HolderOk, Inv, Next, Enabled, ReplyOk, TokensApart;
    GrantsDistinct(w.db, e, letters);
    hide NewGrants;
    forall l | l in NewGrants(w.db, e, letters)
      ensures HolderOk(Next(w.db, e), NewGrants(w.db, e, letters)[l])
      ensures NewGrants(w.db, e, letters)[l].token !in w.db.issued && l !in w.grants
    {
      var id := GrantOf(w.db, e, letters, l);
      ClaimMakesHolder(w.db, e, id);
    }
  }

  lemma GrantOf(db: Db, e: Event, letters: map<RunId, nat>, l: nat) returns (id: RunId)
    requires e.action.Claim?
    requires forall i, j | i in letters && j in letters :: letters[i] == letters[j] ==> i == j
    requires l in NewGrants(db, e, letters)
    ensures id in letters && id in e.action.picked && id in db.runs && letters[id] == l && l in letters.Values
    ensures NewGrants(db, e, letters)[l] ==
      Holder(id, e.action.picked[id], e.now + db.runs[id].spec.leaseDuration)
  {
    id :| id in letters && id in e.action.picked && id in db.runs && letters[id] == l;
  }

  /** A grant tells its holder the token and the deadline that the claimed row then has. */
  lemma GrantsAreClaims(db: Db, e: Event, letters: map<RunId, nat>, l: nat)
    requires Enabled(db, e) && e.action.Claim?
    requires forall i, j | i in letters && j in letters :: letters[i] == letters[j] ==> i == j
    requires l in NewGrants(db, e, letters)
    ensures var h := NewGrants(db, e, letters)[l];
      && Holds(Next(db, e), h.run, h.token)
      && Next(db, e).runs[h.run].leaseExpiresAt == Some(h.believed)
  {
    var id := GrantOf(db, e, letters, l);
    ClaimStarts(db, e, id);
    hide Next, Enabled, NewGrants;
  }

  lemma GrantsDistinct(db: Db, e: Event, letters: map<RunId, nat>)
    requires e.action.Claim?
    requires forall i, j | i in letters && j in letters :: letters[i] == letters[j] ==> i == j
    requires forall i, j | i in e.action.picked && j in e.action.picked ::
      e.action.picked[i] == e.action.picked[j] ==> i == j
    ensures var news := NewGrants(db, e, letters);
      forall l, m | l in news && m in news :: news[l].token == news[m].token ==> l == m
  {
  }

  lemma PickedDistinct(db: Db, e: Event)
    requires Enabled(db, e) && e.action.Claim?
    ensures forall i, j | i in e.action.picked && j in e.action.picked ::
      e.action.picked[i] == e.action.picked[j] ==> i == j
  {
  }

  /** Time and other actors make no belief unsound, held or on its way. */
  lemma BeliefsStay(w: World, e: Event)
    requires WorldInv(w) && Enabled(w.db, e)
    ensures WorldInv(w.(db := Next(w.db, e)))
  {
    hide Inv, Next, Enabled, HolderOk;
    StepKeeps(w.db, e);
    forall s | s in w.held
      ensures HolderOk(Next(w.db, e), w.held[s])
    {
      HolderStays(w.db, e, w.held[s]);
    }
    forall l | l in w.grants
      ensures HolderOk(Next(w.db, e), w.grants[l])
    {
      HolderStays(w.db, e, w.grants[l]);
    }
    forall l | l in w.replies
      ensures ReplyOk(Next(w.db, e), w.replies[l])
    {
      if w.replies[l].Renewed? {
        HolderStays(w.db, e, w.replies[l].holder);
      }
    }
  }

  lemma ClaimSentKeeps(w: World, e: Event, letters: map<RunId, nat>)
    requires WorldInv(w) && WorldEnabled(w, ClaimSent(e, letters))
    ensures WorldInv(WorldNext(w, ClaimSent(e, letters)))
  {
    hide Inv, Next, Enabled, HolderOk, NewGrants, ReplyOk;
    BeliefsStay(w, e);
    NewGrantsOk(w, e, letters);
    forall s | s in w.held
      ensures w.held[s].token in w.db.issued
    {
      HolderIssued(w.db, w.held[s]);
    }
    forall l | l in w.grants
      ensures w.grants[l].token in w.db.issued
    {
      HolderIssued(w.db, w.grants[l]);
    }
  }

  lemma RenewSentKeeps(w: World, e: Event, slot: nat, letter: nat)
    requires WorldInv(w) && WorldEnabled(w, RenewSent(e, slot, letter))
    ensures WorldInv(WorldNext(w, RenewSent(e, slot, letter)))
  {
    hide Inv, Next, Enabled, HolderOk;
    BeliefsStay(w, e);
    var h := w.held[slot];
    match Statements.RenewAnswer(w.db, h.run, h.token, e.now)
    case Renewed(deadline) => RenewRefreshes(w.db, e, h, deadline);
    case Fenced =>
  }

  /**
   A response that arrives late, after any other acts, is still sound to believe, and is
   what the holder it was meant for then believes; no other holder is affected.
   */
  lemma HearingKeeps(w: World, a: Act)
    requires WorldInv(w) && WorldEnabled(w, a) && (a.GrantHeard? || a.ReplyHeard?)
    ensures WorldInv(WorldNext(w, a))
    ensures a.GrantHeard? ==> WorldNext(w, a).held == w.held[a.slot := w.grants[a.letter]]
    ensures a.ReplyHeard? ==>
      var r, held := w.replies[a.letter], WorldNext(w, a).held;
      && (r.Renewed? && r.slot in w.held && w.held[r.slot].token == r.holder.token ==>
            r.slot in held && held[r.slot] == r.holder)
      && (r.Refused? && r.slot in w.held && w.held[r.slot].token == r.token ==> r.slot !in held)
      && (forall s :: s != r.slot && s in w.held ==> s in held && held[s] == w.held[s])
      && held.Keys <= w.held.Keys
  {
    hide Inv, HolderOk;
    if a.ReplyHeard? {
      assert ReplyOk(w.db, w.replies[a.letter]);
    }
  }

  lemma WorldStepKeeps(w: World, a: Act)
    requires WorldInv(w) && WorldEnabled(w, a)
    ensures WorldInv(WorldNext(w, a))
  {
    match a
    case Unheard(e) => BeliefsStay(w, e);
    case ClaimSent(e, letters) => ClaimSentKeeps(w, e, letters);
    case RenewSent(e, slot, letter) => RenewSentKeeps(w, e, slot, letter);
    case GrantHeard(_, _) => HearingKeeps(w, a);
    case ReplyHeard(_) => HearingKeeps(w, a);
    case Forget(_) => hide Inv, HolderOk;
  }

  lemma HolderIssued(db: Db, h: Holder)
    requires HolderOk(db, h)
    ensures h.token in db.issued
  {
  }

  // ---------------------------------------------------------------------------
  // Whole histories of the world
  // ---------------------------------------------------------------------------

  ghost predicate WorldStepAt(worlds: seq<World>, acts: seq<Act>, i: nat)
    requires |worlds| == |acts| + 1 && i < |acts|
  {
    WorldEnabled(worlds[i], acts[i]) && worlds[i + 1] == WorldNext(worlds[i], acts[i])
  }

  ghost predicate IsHistory(worlds: seq<World>, acts: seq<Act>) {
    && |worlds| == |acts| + 1
    && worlds[0] == World(Empty(worlds[0].db.clock), map[], map[], map[])
    && forall i :: 0 <= i < |acts| ==> WorldStepAt(worlds, acts, i)
  }

  lemma {:induction false} HistoryInv(worlds: seq<World>, acts: seq<Act>, i: nat)
    requires IsHistory(worlds, acts) && i < |worlds|
    ensures WorldInv(worlds[i])
  {
    if i == 0 {
      EmptyInv(worlds[0].db.clock);
    } else {
      HistoryInv(worlds, acts, i - 1);
      assert WorldStepAt(worlds, acts, i - 1);
      hide WorldInv, WorldNext;
      WorldStepKeeps(worlds[i - 1], acts[i - 1]);
    }
  }

  /** Among all holders at most one per task can renew, complete or fail it. */
  lemma OneAcceptableHolder(worlds: seq<World>, acts: seq<Act>, i: nat, s: nat, t: nat, now: Time)
    requires IsHistory(worlds, acts) && i < |worlds| && s in worlds[i].held && t in worlds[i].held
    requires worlds[i].held[s].run == worlds[i].held[t].run
    requires LiveIn(worlds[i].db, worlds[i].held[s].run, worlds[i].held[s].token, now)
    requires LiveIn(worlds[i].db, worlds[i].held[t].run, worlds[i].held[t].token, now)
    ensures s == t
  {
    HistoryInv(worlds, acts, i);
    hide Inv;
  }

  /**
   A worker whose token is still current and whose local deadline has not passed is
   accepted by the database, even if responses were lost, late or out of order.
   */
  lemma TrustedMeansAccepted(worlds: seq<World>, acts: seq<Act>, i: nat, s: nat, now: Time)
    requires IsHistory(worlds, acts) && i < |worlds| && s in worlds[i].held
    requires var h := worlds[i].held[s]; Holds(worlds[i].db, h.run, h.token) && now < h.believed
    ensures var h := worlds[i].held[s]; LiveIn(worlds[i].db, h.run, h.token, now)
    ensures var h := worlds[i].held[s]; h.believed <= worlds[i].db.runs[h.run].leaseExpiresAt.value
  {
    HistoryInv(worlds, acts, i);
    HolderTrusts(worlds[i].db, worlds[i].held[s]);
    hide Inv;
  }

  // ---------------------------------------------------------------------------
  // How long an expired worker and its replacement overlap
  // ---------------------------------------------------------------------------

  /**
   The attempt after a holder's own starts no earlier than the deadline it believes in,
   unless the holder's attempt was reported as failed, which takes its own token.
   */
  lemma SuccessorStartsLate(worlds: seq<World>, acts: seq<Act>, i: nat, slot: nat, n: nat)
    requires IsHistory(worlds, acts) && i < |worlds| && slot in worlds[i].held
    requires var db, h := worlds[i].db, worlds[i].held[slot];
      && Key(h.run, n) in db.attempts && db.attempts[Key(h.run, n)].leaseToken == h.token
      && Key(h.run, n + 1) in db.attempts
    ensures var db, h := worlds[i].db, worlds[i].held[slot];
      && Retriable(db.attempts[Key(h.run, n)])
      && (db.attempts[Key(h.run, n)].outcome == Some(AttemptOutcome.Expired) ==>
            h.believed <= db.attempts[Key(h.run, n + 1)].startedAt)
  {
    HistoryInv(worlds, acts, i);
    var db, h := worlds[i].db, worlds[i].held[slot];
    hide TokensDistinct, RunsUnique, JobsOk, Accounted, TaskOk, IsHistory;
    assert n >= 1;
    AttemptsDisjointIn(db, h.run, n, n + 1);
  }

  /**
   A worker that lost its lease by expiry leaves its loop, and so cancels its handler,
   less than one heartbeat interval and the latencies of one round after the next
   attempt has started: an overlap is at most that long.
   */
  lemma OverlapIsBounded(worlds: seq<World>, acts: seq<Act>, i: nat, slot: nat, n: nat,
                         lease: nat, s: Heart, rounds: seq<Round>) returns (m: nat)
    requires IsHistory(worlds, acts) && i < |worlds| && slot in worlds[i].held
    requires var db, h := worlds[i].db, worlds[i].held[slot];
      && Key(h.run, n) in db.attempts && db.attempts[Key(h.run, n)].leaseToken == h.token
      && db.attempts[Key(h.run, n)].outcome == Some(AttemptOutcome.Expired)
      && Key(h.run, n + 1) in db.attempts
      && MICROSECOND * h.believed == Beats(lease, s, rounds).believed
    requires !s.lost && s.at < s.believed <= s.stored <= s.at + lease && Beats(lease, s, rounds).lost
    ensures m < |rounds| && !Beats(lease, s, rounds[..m]).lost
    ensures var next := worlds[i].db.attempts[Key(worlds[i].held[slot].run, n + 1)];
      Beats(lease, s, rounds).at
      < MICROSECOND * next.startedAt + HeartbeatInterval(lease) + rounds[m].before + rounds[m].after
  {
    SuccessorStartsLate(worlds, acts, i, slot, n);
    m := LeavesLoopBy(lease, s, rounds);
  }
}
