/** `claim_and_dispatch`: permits of one worker process against the claims it takes. */
module Worker {
  import opened Rows
  import opened Lease
  import opened Tables
  import opened Protocol
  import opened Ordering
  import opened Statements
  import Store

  function Total(ended: seq<nat>): nat {
    if ended == [] then 0 else Total(ended[..|ended| - 1]) + ended[|ended| - 1]
  }

  /** `ended[i]` handlers end before the i-th dispatch; only handlers in flight can end. */
  ghost predicate Feasible(held: nat, ended: seq<nat>) {
    forall i :: 0 <= i < |ended| ==> Total(ended[..i]) + ended[i] <= held + i
  }

  lemma TotalNext(ended: seq<nat>, i: nat)
    requires i < |ended|
    ensures Total(ended[..i + 1]) == Total(ended[..i]) + ended[i]
  {
    assert ended[..i + 1][..i] == ended[..i];
  }

  lemma FeasiblePrefix(held: nat, ended: seq<nat>, n: nat)
    requires Feasible(held, ended) && n <= |ended|
    ensures Feasible(held, ended[..n])
  {
    forall i | 0 <= i < n
      ensures Total(ended[..n][..i]) + ended[..n][i] <= held + i
    {
      assert ended[..n][..i] == ended[..i] && ended[..n][i] == ended[i];
    }
  }

  class Worker {
    const maxConcurrency: nat
    const names: set<string>
    /** Permits held by handlers in flight; the semaphore has the others. */
    var held: nat

    ghost predicate Valid()
      reads this
    {
      held <= maxConcurrency
    }

    constructor (maxConcurrency: nat, names: set<string>)
      ensures Valid() && held == 0 && this.maxConcurrency == maxConcurrency && this.names == names
    {
      this.maxConcurrency, this.names, this.held := maxConcurrency, names, 0;
    }

    /** Handlers in flight that end give their permits back. */
    method Release(ended: nat)
      requires Valid() && ended <= held
      modifies this
      ensures Valid() && held + ended == old(held)
    {
      held := held - ended;
    }

    /**
     One permit per claimed task, however releases interleave: permits held grow by the
     tasks dispatched and shrink by the handlers that ended, and never pass the limit.
     */
    method DispatchAll(tasks: seq<ClaimedRun>, ended: seq<nat>) returns (r: Result<nat>)
      requires Valid() && |ended| == |tasks| && Feasible(held, ended)
      modifies this
      ensures Valid()
      ensures |tasks| <= maxConcurrency - old(held)
              && (forall i :: 0 <= i < |tasks| ==> tasks[i].spec.jobName in names)
              ==> r == Ok(|tasks|)
      ensures r.Ok? ==> r.value == |tasks| && held + Total(ended) == old(held) + |tasks|
      ensures r.Ok? ==> forall i :: 0 <= i < |tasks| ==> tasks[i].spec.jobName in names
    {
      assert ended[..0] == [];
      for i := 0 to |tasks|
        invariant Valid() && held + Total(ended[..i]) == old(held) + i
        invariant forall j :: 0 <= j < i ==> tasks[j].spec.jobName in names
      {
        TotalNext(ended, i);
        Release(ended[i]);
        if held == maxConcurrency {
          return Err(Invariant("claimed more tasks than worker capacity"));
        }
        held := held + 1;
        if tasks[i].spec.jobName !in names {
          held := held - 1;
          return Err(Invariant("claimed task has no registered handler"));
        }
      }
      assert ended[..|tasks|] == ended;
      r := Ok(|tasks|);
    }

    /**
     The claim is limited to the permits free when it is made, so every claimed task
     finds a permit and a handler and neither error is returned.
     */
    method ClaimAndDispatch(store: Store.Store, workerId: string, locked: set<RunId>, tokens: map<RunId, Token>,
                            txNow: Time, now: Time, ended: seq<nat>)
      returns (r: Result<nat>, ghost picked: map<RunId, Token>)
      requires Valid() && store.Valid() && store.clock <= now && txNow <= now
      requires FreshTokens(tokens, store.runs, store.issued)
      requires |ended| == maxConcurrency && Feasible(held, ended)
      modifies this, store
      ensures Valid() && store.Valid()
      ensures old(held) == maxConcurrency ==> r == Ok(0) && store.State() == old(store.State())
      ensures old(held) < maxConcurrency ==>
        && TakesBest(old(store.runs), names, locked, txNow, maxConcurrency - old(held), picked.Keys)
        && r == Ok(|picked|) && |picked| <= |ended|
        && held + Total(ended[..|picked|]) == old(held) + |picked|
        && store.State() == Next(old(store.State()), Event(Claim(workerId, picked), txNow, now))
    {
      hide Inv, Next, FreshTokens, ClaimRanks, ClaimedFrom, SortsBefore, IsBest;
      var available := maxConcurrency - held;
      if available == 0 {
        return Ok(0), map[];
      }
      var claimed;
      claimed, picked := store.ClaimBatch(workerId, names, available, locked, tokens, txNow, now);
      assert |picked.Keys| == |picked|;
      FeasiblePrefix(held, ended, |claimed.value|);
      r := DispatchAll(claimed.value, ended[..|claimed.value|]);
    }
  }
}
