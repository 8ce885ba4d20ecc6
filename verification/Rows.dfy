/**
 A table's rows in the order its queries use, and a query for the first rows that satisfy a condition, as
 the service's fetch loop collects them.
 */
module Rows {
  import opened Common

  function Count<T>(t: seq<T>, p: T -> bool): nat {
    if t == [] then 0 else Count(t[..|t| - 1], p) + if p(t[|t| - 1]) then 1 else 0
  }

  /** How many rows before position `i` satisfy `p`. */
  function Before<T>(t: seq<T>, i: nat, p: T -> bool): nat
    requires i <= |t|
  {
    Count(t[..i], p)
  }

  /** `items` are the positions of the first `limit` rows that satisfy `p`, in order. */
  ghost predicate Lists<T>(items: seq<nat>, t: seq<T>, p: T -> bool, limit: nat) {
    && |items| == Min(limit, Count(t, p))
    && forall j :: 0 <= j < |items| ==> items[j] < |t| && p(t[items[j]]) && Before(t, items[j], p) == j
  }

  /** DbFetchItems, for a query with this condition and limit over rows in its order. */
  method Fetch<T>(t: seq<T>, p: T -> bool, limit: nat) returns (items: seq<nat>)
    ensures Lists(items, t, p, limit)
  {
    items := [];
    var i := 0;
    while i < |t| && |items| < limit
      invariant 0 <= i <= |t|
      invariant Lists(items, t[..i], p, limit)
      invariant |items| == Before(t, i, p) <= limit
    {
      ListsExtend(items, t, i, p, limit);
      items := if p(t[i]) then items + [i] else items;
      i := i + 1;
    }
    ListsWhole(items, t, i, p, limit);
  }

  lemma PrefixStep<T>(t: seq<T>, i: nat, p: T -> bool)
    requires i < |t|
    ensures Before(t, i + 1, p) == Before(t, i, p) + if p(t[i]) then 1 else 0
  {
    assert t[..i + 1][..i] == t[..i];
  }

  lemma {:induction false} BeforeGrows<T>(t: seq<T>, i: nat, j: nat, p: T -> bool)
    requires i <= j <= |t|
    ensures Before(t, i, p) <= Before(t, j, p)
    decreases j
  {
    if i < j {
      PrefixStep(t, j - 1, p);
      BeforeGrows(t, i, j - 1, p);
    }
  }

  lemma BeforeAll<T>(t: seq<T>, p: T -> bool)
    ensures Before(t, |t|, p) == Count(t, p)
  {
    assert t[..|t|] == t;
  }

  lemma {:induction false} CountReplaced<T>(t: seq<T>, i: nat, x: T, p: T -> bool)
    requires i < |t|
    ensures Count(t[i := x], p) == Count(t, p) - (if p(t[i]) then 1 else 0) + if p(x) then 1 else 0
    decreases |t|
  {
    var k := |t| - 1;
    if i < k {
      CountReplaced(t[..k], i, x, p);
      assert t[i := x][..k] == t[..k][i := x];
    } else {
      assert t[i := x][..k] == t[..k];
    }
  }

  lemma ListsExtend<T>(items: seq<nat>, t: seq<T>, i: nat, p: T -> bool, limit: nat)
    requires i < |t| && Lists(items, t[..i], p, limit) && |items| == Before(t, i, p) < limit
    ensures var next := if p(t[i]) then items + [i] else items;
            Lists(next, t[..i + 1], p, limit) && |next| == Before(t, i + 1, p)
  {
    PrefixStep(t, i, p);
    var next := if p(t[i]) then items + [i] else items;
    forall j | 0 <= j < |next|
      ensures next[j] < i + 1 && p(t[next[j]]) && Before(t[..i + 1], next[j], p) == j {
      if j < |items| {
        assert t[..i][..items[j]] == t[..items[j]];
      }
      assert t[..i + 1][..next[j]] == t[..next[j]];
    }
  }

  lemma ListsWhole<T>(items: seq<nat>, t: seq<T>, i: nat, p: T -> bool, limit: nat)
    requires i <= |t| && Lists(items, t[..i], p, limit) && (i == |t| || |items| >= limit)
    requires |items| == Before(t, i, p) <= limit
    ensures Lists(items, t, p, limit)
  {
    BeforeGrows(t, i, |t|, p);
    BeforeAll(t, p);
    forall j | 0 <= j < |items| ensures items[j] < |t| && p(t[items[j]]) && Before(t, items[j], p) == j {
      assert t[..i][..items[j]] == t[..items[j]];
    }
  }

  lemma RankIsUnique<T>(t: seq<T>, i: nat, j: nat, p: T -> bool)
    requires i < |t| && j < |t| && i != j && p(t[j]) && Before(t, i, p) == Before(t, j, p)
    ensures !p(t[i])
  {
    if i < j {
      PrefixStep(t, i, p);
      BeforeGrows(t, i + 1, j, p);
    } else {
      PrefixStep(t, j, p);
      BeforeGrows(t, j + 1, i, p);
    }
  }

  /** The listed positions in ascending order are exactly those that satisfy `p` with fewer than `limit`
      such rows before them. */
  lemma ListsExactly<T>(items: seq<nat>, t: seq<T>, p: T -> bool, limit: nat)
    requires Lists(items, t, p, limit)
    ensures forall j, k :: 0 <= j < k < |items| ==> items[j] < items[k]
    ensures forall i: nat :: i in items <==> i < |t| && p(t[i]) && Before(t, i, p) < limit
  {
    forall j, k | 0 <= j < k < |items| ensures items[j] < items[k] {
      if items[k] <= items[j] {
        BeforeGrows(t, items[k], items[j], p);
      }
    }
    forall i: nat ensures i in items <==> i < |t| && p(t[i]) && Before(t, i, p) < limit {
      if i < |t| && p(t[i]) && Before(t, i, p) < limit {
        PrefixStep(t, i, p);
        BeforeGrows(t, i + 1, |t|, p);
        BeforeAll(t, p);
        var k := items[Before(t, i, p)];
        if k != i {
          RankIsUnique(t, k, i, p);
        }
      }
    }
  }

  lemma {:induction false} CountAgrees<T>(t: seq<T>, p: T -> bool, q: T -> bool)
    requires forall x :: p(x) <==> q(x)
    ensures Count(t, p) == Count(t, q)
  {
    if t != [] {
      CountAgrees(t[..|t| - 1], p, q);
    }
  }
}
