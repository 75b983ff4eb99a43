/**
 `ORDER BY ... LIMIT` over run ids: lexicographic on two columns, ties by id, so the
 order is total and the first k rows are determined.
 */
module Ordering {
  import opened Rows

  datatype Rank = Rank(first: int, second: int)

  predicate Before(ranks: map<RunId, Rank>, x: RunId, y: RunId)
    requires x in ranks && y in ranks
  {
    || ranks[x].first < ranks[y].first
    || (ranks[x].first == ranks[y].first && ranks[x].second < ranks[y].second)
    || (ranks[x].first == ranks[y].first && ranks[x].second == ranks[y].second && x < y)
  }

  /** `s` lists exactly the ranked rows, each strictly before the next ones. */
  ghost predicate Enumerates(ranks: map<RunId, Rank>, s: seq<RunId>) {
    && (forall x :: x in s <==> x in ranks)
    && (forall i, j :: 0 <= i < j < |s| ==> Before(ranks, s[i], s[j]))
  }

  /** `picked` is what LIMIT k leaves: as many rows as it can, none worse than one left out. */
  ghost predicate IsBest(ranks: map<RunId, Rank>, k: nat, picked: set<RunId>) {
    && picked <= ranks.Keys
    && |picked| == Least(k, |ranks|)
    && (forall x, y :: x in picked && y in ranks && y !in picked ==> Before(ranks, x, y))
  }

  ghost predicate IsFirst(ranks: map<RunId, Rank>, rest: set<RunId>, x: RunId)
    requires rest <= ranks.Keys
  {
    x in rest && forall y :: y in rest && y != x ==> Before(ranks, x, y)
  }

  lemma {:induction false} HasFirst(ranks: map<RunId, Rank>, rest: set<RunId>) returns (x: RunId)
    requires rest != {} && rest <= ranks.Keys
    ensures IsFirst(ranks, rest, x)
    decreases |rest|
  {
    x :| x in rest;
    if rest != {x} {
      var smaller := rest - {x};
      assert rest == smaller + {x};
      var y := HasFirst(ranks, smaller);
      if Before(ranks, y, x) {
        x := y;
      } else {
        forall z | z in rest && z != x
          ensures Before(ranks, x, z)
        {
          assert z == y || Before(ranks, y, z);
        }
      }
    }
  }

  method OrderBy(ranks: map<RunId, Rank>) returns (s: seq<RunId>)
    ensures Enumerates(ranks, s)
    ensures |s| == |ranks|
  {
    s := [];
    var rest := ranks.Keys;
    while rest != {}
      invariant rest <= ranks.Keys && |s| + |rest| == |ranks|
      invariant forall x :: x in s <==> x in ranks && x !in rest
      invariant forall i, j :: 0 <= i < j < |s| ==> Before(ranks, s[i], s[j])
      invariant forall x, y :: x in s && y in rest ==> Before(ranks, x, y)
      decreases |rest|
    {
      ghost var first := HasFirst(ranks, rest);
      var x :| x in rest && forall y :: y in rest && y != x ==> Before(ranks, x, y);
      s := s + [x];
      rest := rest - {x};
    }
  }

  function Elements(s: seq<RunId>): set<RunId> {
    set i | 0 <= i < |s| :: s[i]
  }

  function Least(k: nat, n: nat): nat {
    if k < n then k else n
  }

  /** The first k entries of the order are the k best rows. */
  lemma PrefixIsBest(ranks: map<RunId, Rank>, s: seq<RunId>, k: nat)
    requires Enumerates(ranks, s) && |s| == |ranks|
    ensures IsBest(ranks, k, Elements(s[..Least(k, |s|)]))
  {
    var m := Least(k, |s|);
    var front := s[..m];
    DistinctCount(ranks, front);
    forall j | 0 <= j < m
      ensures s[j] in Elements(front)
    {
      assert front[j] == s[j];
    }
    forall x, y | x in Elements(front) && y in ranks && y !in Elements(front)
      ensures Before(ranks, x, y)
    {
      var i :| 0 <= i < m && front[i] == x;
      var j :| 0 <= j < |s| && s[j] == y;
    }
  }

  lemma {:induction false} DistinctCount(ranks: map<RunId, Rank>, s: seq<RunId>)
    requires forall i :: 0 <= i < |s| ==> s[i] in ranks
    requires forall i, j :: 0 <= i < j < |s| ==> Before(ranks, s[i], s[j])
    ensures |Elements(s)| == |s|
  {
    if s != [] {
      var n := |s| - 1;
      DistinctCount(ranks, s[..n]);
      assert Elements(s) == Elements(s[..n]) + {s[n]};
      assert forall i :: 0 <= i < n ==> s[..n][i] != s[n];
    }
  }

  /** The rows a limited query returns are determined by the data. */
  lemma BestIsUnique(ranks: map<RunId, Rank>, k: nat, p: set<RunId>, q: set<RunId>)
    requires IsBest(ranks, k, p) && IsBest(ranks, k, q)
    ensures p == q
  {
    if p - q != {} && q - p != {} {
      var x :| x in p - q;
      var y :| y in q - p;
      assert false;
    }
    EqualSizes(p, q);
  }

  lemma EqualSizes(p: set<RunId>, q: set<RunId>)
    requires |p| == |q|
    ensures p - q == {} || q - p == {} ==> p == q
  {
    assert |p| == |p * q| + |p - q| by { assert p == (p * q) + (p - q); }
    assert |q| == |p * q| + |q - p| by { assert q == (p * q) + (q - p); }
  }

  /** `ORDER BY ... LIMIT limit`. */
  method SelectBest(ranks: map<RunId, Rank>, limit: nat) returns (best: seq<RunId>)
    ensures IsBest(ranks, limit, Elements(best))
    ensures forall i :: 0 <= i < |best| ==> best[i] in ranks
    ensures forall i, j :: 0 <= i < j < |best| ==> best[i] != best[j]
  {
    var order := OrderBy(ranks);
    PrefixIsBest(ranks, order, limit);
    best := order[..Least(limit, |order|)];
  }
}
