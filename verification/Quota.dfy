/**
 Per-user quota trimming. The table is its rows in deletion order; a total is taken per SID as stored, a
 row is matched to a total ignoring case and leading backslashes, and a row without a SID matches every
 total.
 */
module Quota {
  import opened Common
  import opened Rows

  type Sid = string

  datatype Row = Row(landed: bool, sid: Option<Sid>, size: nat)

  /** One line of the GROUP BY: rows without a SID fall under the empty one. */
  datatype Group = Group(sid: Sid, total: nat)

  const MAX_PER_SID: nat := 4096
  const MB: nat := 1024 * 1024

  predicate Landed(r: Row) {
    r.landed
  }

  function GroupOf(r: Row): Sid {
    if r.sid.None? then "" else r.sid.value
  }

  /** SidEquals, for SIDs that fit its buffer. */
  predicate SidEquals(item: Sid, group: Sid) {
    SameText(StripSlashes(item), group)
  }

  /** The driver's spelling, with a backslash before it, is the same SID. */
  lemma MarkedSidIsEqual(sid: Sid, group: Sid)
    requires sid == "" || sid[0] != '\\'
    ensures SidEquals(sid, group) <==> SameText(sid, group)
    ensures SidEquals("\\" + sid, group) <==> SameText(sid, group)
  {
    assert StripSlashes(sid) == sid && ("\\" + sid)[1..] == sid;
  }

  /** The pass trims this row when it works on group `g`. */
  predicate Matches(r: Row, g: Sid) {
    r.sid.None? || SidEquals(r.sid.value, g)
  }

  // ------------------------------------------------------------------ sums of sizes

  /** Sizes of the rows before position `i` that `p` selects. */
  function SumTo(rows: seq<Row>, i: nat, p: nat -> bool): nat
    requires i <= |rows|
  {
    if i == 0 then 0 else SumTo(rows, i - 1, p) + if p(i - 1) then rows[i - 1].size else 0
  }

  predicate IsIn(rows: seq<Row>, g: Sid, k: nat) {
    k < |rows| && rows[k].landed && GroupOf(rows[k]) == g
  }

  function InGroup(rows: seq<Row>, g: Sid): nat -> bool {
    (k: nat) => IsIn(rows, g, k)
  }

  /** SUM(file_size) of a group's landed rows. */
  function Total(rows: seq<Row>, g: Sid): nat {
    SumTo(rows, |rows|, InGroup(rows, g))
  }

  predicate IsMatch(rows: seq<Row>, g: Sid, k: nat) {
    k < |rows| && rows[k].landed && Matches(rows[k], g)
  }

  function Matching(rows: seq<Row>, g: Sid): nat -> bool {
    (k: nat) => IsMatch(rows, g, k)
  }

  /** Sizes of the group's landed rows older than row `i`. */
  function Older(rows: seq<Row>, g: Sid, i: nat): nat
    requires i <= |rows|
  {
    SumTo(rows, i, Matching(rows, g))
  }

  predicate IsCandidate(rows: seq<Row>, window: nat, g: Sid, k: nat) {
    IsMatch(rows, g, k) && Before(rows, k, Landed) < window
  }

  function Candidates(rows: seq<Row>, window: nat, g: Sid): nat -> bool {
    (k: nat) => IsCandidate(rows, window, g, k)
  }

  /** Sizes of the group's rows among the `window` oldest landed ones. */
  function InWindow(rows: seq<Row>, window: nat, g: Sid): nat {
    SumTo(rows, |rows|, Candidates(rows, window, g))
  }

  /** A row of the group within the window whose older ones do not yet cover the excess. */
  predicate IsDoomed(rows: seq<Row>, window: nat, g: Sid, over: int, k: nat) {
    IsCandidate(rows, window, g, k) && Older(rows, g, k) < over
  }

  function Doomed(rows: seq<Row>, window: nat, g: Sid, over: int): nat -> bool {
    (k: nat) => IsDoomed(rows, window, g, over, k)
  }

  /** Purges the shortest oldest-first run of the group's rows within the window that covers the excess. */
  function Trim(rows: seq<Row>, window: nat, g: Sid, over: int): (r: seq<Row>)
    ensures |r| == |rows|
  {
    seq(|rows|, k requires 0 <= k < |rows| =>
          if IsDoomed(rows, window, g, over, k) then rows[k].(landed := false) else rows[k])
  }

  // ------------------------------------------------------------------ the service's code

  class Items {
    var rows: seq<Row>

    constructor (rows: seq<Row>)
      ensures this.rows == rows
    {
      this.rows := rows;
    }

    /** DbListLandedOldest. */
    method ListLandedOldest(limit: nat) returns (items: seq<nat>)
      ensures Lists(items, rows, Landed, limit)
    {
      items := Fetch(rows, Landed, limit);
    }

    /** StoreDeleteEntry and the status update. */
    method Purge(i: nat)
      requires i < |rows|
      modifies this
      ensures rows == old(rows)[i := old(rows)[i].(landed := false)]
    {
      rows := rows[i := rows[i].(landed := false)];
    }

    /** The body of PolicyEnforceQuota's loop for one SID over its quota. */
    method TrimGroup(g: Sid, excess: nat) returns (purged: nat)
      requires excess > 0
      modifies this
      ensures rows == Trim(old(rows), MAX_PER_SID, g, excess)
      ensures Count(rows, Landed) + purged == Count(old(rows), Landed)
    {
      var items := ListLandedOldest(MAX_PER_SID);
      var over: int := excess;
      var k := 0;
      purged := 0;
      ghost var t := rows;
      TrimNone(t, g, excess);
      while k < |items| && over > 0
        invariant 0 <= k <= |items|
        invariant rows == Trim(t, k, g, excess)
        invariant Left(t, k, g, excess) + purged == Count(t, Landed)
        invariant Older(t, g, Reach(items, k)) == excess - over
      {
        TrimNext(t, items, g, excess, k);
        TrimCounts(t, items, g, excess, k);
        if Matches(rows[items[k]], g) {
          Purge(items[k]);
          over := over - rows[items[k]].size;
          purged := purged + 1;
        }
        k := k + 1;
      }
      TrimRest(t, items, g, excess, k);
    }

    /** PolicyEnforceQuota, given the totals DbQuotaTotals returned. */
    method EnforceQuota(quotaMB: nat, groups: seq<Group>) returns (purged: nat)
      modifies this
      ensures rows == if quotaMB == 0 then old(rows) else Pass(old(rows), groups, quotaMB * 1048576)
      ensures Count(rows, Landed) + purged == Count(old(rows), Landed)
    {
      purged := 0;
      if quotaMB == 0 {
        return;
      }
      var quota := quotaMB * MB;
      var i := 0;
      while i < |groups|
        invariant 0 <= i <= |groups|
        invariant rows == Pass(old(rows), groups[..i], quota)
        invariant Count(rows, Landed) + purged == Count(old(rows), Landed)
      {
        assert groups[..i + 1][..i] == groups[..i];
        if groups[i].total > quota {
          var n := TrimGroup(groups[i].sid, groups[i].total - quota);
          purged := purged + n;
        }
        i := i + 1;
      }
      assert groups[..i] == groups;
    }
  }

  /** The position just past the first `k` listed rows. */
  function Reach(items: seq<nat>, k: nat): nat
    requires k <= |items|
  {
    if k == 0 then 0 else items[k - 1] + 1
  }

  lemma {:induction false} OlderGrows(t: seq<Row>, g: Sid, i: nat, j: nat)
    requires i <= j <= |t|
    ensures Older(t, g, i) <= Older(t, g, j)
    ensures Before(t, i, Landed) == Before(t, j, Landed) ==> Older(t, g, i) == Older(t, g, j)
    decreases j
  {
    if i < j {
      OlderGrows(t, g, i, j - 1);
      PrefixStep(t, j - 1, Landed);
      BeforeGrows(t, i, j - 1, Landed);
    }
  }

  lemma ReachRank(t: seq<Row>, items: seq<nat>, limit: nat, k: nat)
    requires Lists(items, t, Landed, limit) && k <= |items|
    ensures Reach(items, k) <= |t| && Before(t, Reach(items, k), Landed) == k
    ensures k < |items| ==> Reach(items, k) <= items[k]
  {
    if k > 0 {
      PrefixStep(t, items[k - 1], Landed);
    }
    if k < |items| {
      RanksAscend(t, items[k], Reach(items, k));
    }
  }

  lemma RanksAscend(t: seq<Row>, i: nat, j: nat)
    requires i < |t| && j <= |t| && t[i].landed && Before(t, i, Landed) >= Before(t, j, Landed)
    ensures j <= i
  {
    if i < j {
      PrefixStep(t, i, Landed);
      BeforeGrows(t, i + 1, j, Landed);
    }
  }

  lemma TrimNone(t: seq<Row>, g: Sid, over: int)
    ensures Trim(t, 0, g, over) == t
  {
    assert forall k :: 0 <= k < |t| ==> Trim(t, 0, g, over)[k] == t[k];
  }

  lemma TrimNext(t: seq<Row>, items: seq<nat>, g: Sid, over: nat, k: nat)
    requires Lists(items, t, Landed, MAX_PER_SID) && k < |items|
    requires Reach(items, k) <= |t| && Older(t, g, Reach(items, k)) < over
    ensures Trim(t, k, g, over)[items[k]] == t[items[k]]
    ensures Trim(t, k + 1, g, over) ==
            if Matches(t[items[k]], g) then Trim(t, k, g, over)[items[k] := t[items[k]].(landed := false)]
            else Trim(t, k, g, over)
    ensures Older(t, g, items[k] + 1) ==
            Older(t, g, Reach(items, k)) + if Matches(t[items[k]], g) then t[items[k]].size else 0
  {
    var p := items[k];
    ReachRank(t, items, MAX_PER_SID, k);
    OlderGrows(t, g, Reach(items, k), p);
    var u := if Matches(t[p], g) then Trim(t, k, g, over)[p := t[p].(landed := false)] else Trim(t, k, g, over);
    forall i | 0 <= i < |t| ensures Trim(t, k + 1, g, over)[i] == u[i] {
      if i != p && Before(t, i, Landed) == k {
        RankIsUnique(t, i, p, Landed);
      }
    }
  }

  lemma TrimCounts(t: seq<Row>, items: seq<nat>, g: Sid, over: nat, k: nat)
    requires Lists(items, t, Landed, MAX_PER_SID) && k < |items|
    requires Reach(items, k) <= |t| && Older(t, g, Reach(items, k)) < over
    ensures Left(t, k + 1, g, over) == Left(t, k, g, over) - if Matches(t[items[k]], g) then 1 else 0
  {
    TrimNext(t, items, g, over, k);
    CountReplaced(Trim(t, k, g, over), items[k], t[items[k]].(landed := false), Landed);
  }

  /** The landed rows that a trim leaves. */
  function Left(t: seq<Row>, window: nat, g: Sid, over: int): nat {
    Count(Trim(t, window, g, over), Landed)
  }

  lemma TrimRest(t: seq<Row>, items: seq<nat>, g: Sid, over: nat, k: nat)
    requires Lists(items, t, Landed, MAX_PER_SID) && k <= |items| && Reach(items, k) <= |t|
    requires k == |items| || Older(t, g, Reach(items, k)) >= over
    ensures Trim(t, k, g, over) == Trim(t, MAX_PER_SID, g, over)
  {
    ReachRank(t, items, MAX_PER_SID, k);
    forall i | 0 <= i < |t| && t[i].landed && k <= Before(t, i, Landed) < MAX_PER_SID ensures Older(t, g, i) >= over {
      PrefixStep(t, i, Landed);
      BeforeGrows(t, i + 1, |t|, Landed);
      BeforeAll(t, Landed);
      if i < Reach(items, k) {
        BeforeGrows(t, i + 1, Reach(items, k), Landed);
      }
      OlderGrows(t, g, Reach(items, k), i);
    }
  }

  // ------------------------------------------------------------------ what one trim achieves

  lemma {:induction false} SumSplits(t: seq<Row>, u: seq<Row>, i: nat, p: nat -> bool, q: nat -> bool, r: nat -> bool)
    requires i <= |t| == |u|
    requires forall k :: 0 <= k < i ==> t[k].size == u[k].size && (p(k) <==> q(k) || r(k)) && !(q(k) && r(k))
    ensures SumTo(t, i, p) == SumTo(u, i, q) + SumTo(t, i, r)
  {
    if i > 0 {
      SumSplits(t, u, i - 1, p, q, r);
    }
  }

  lemma {:induction false} SumAgrees(t: seq<Row>, u: seq<Row>, i: nat, p: nat -> bool, q: nat -> bool)
    requires i <= |t| && i <= |u| && forall k :: 0 <= k < i ==> t[k].size == u[k].size && p(k) == q(k)
    ensures SumTo(t, i, p) == SumTo(u, i, q)
  {
    if i > 0 {
      SumAgrees(t, u, i - 1, p, q);
    }
  }

  /** Candidates ahead of a candidate are all of the group's older rows. */
  lemma {:induction false} WindowIsAPrefix(t: seq<Row>, window: nat, g: Sid, i: nat)
    requires i <= |t| && (i == 0 || Before(t, i - 1, Landed) < window)
    ensures SumTo(t, i, Candidates(t, window, g)) == Older(t, g, i)
  {
    if i > 0 {
      if i > 1 {
        BeforeGrows(t, i - 2, i - 1, Landed);
      }
      WindowIsAPrefix(t, window, g, i - 1);
    }
  }

  /** The doomed rows weigh at least the excess, or they are the whole window. */
  lemma {:induction false} DoomedCover(t: seq<Row>, window: nat, g: Sid, over: int, i: nat)
    requires i <= |t| && over > 0
    ensures var d, c := SumTo(t, i, Doomed(t, window, g, over)), SumTo(t, i, Candidates(t, window, g));
            d <= c && (d == c || d >= over)
  {
    if i > 0 {
      DoomedCover(t, window, g, over, i - 1);
      if IsCandidate(t, window, g, i - 1) && !IsDoomed(t, window, g, over, i - 1) {
        if i > 1 {
          BeforeGrows(t, i - 2, i - 1, Landed);
        }
        WindowIsAPrefix(t, window, g, i - 1);
      }
    }
  }

  /** Nothing is purged beyond what is needed: the rows purged before a doomed one do not yet cover the excess,
      and none of the group's older rows in the window is spared. */
  lemma DoomedAreNeeded(t: seq<Row>, window: nat, g: Sid, over: int, k: nat)
    requires k < |t| && IsDoomed(t, window, g, over, k)
    ensures SumTo(t, k, Doomed(t, window, g, over)) < over
    ensures forall j :: 0 <= j < k && IsCandidate(t, window, g, j) ==> IsDoomed(t, window, g, over, j)
  {
    SumIncluded(t, t, k, Doomed(t, window, g, over), Matching(t, g));
    forall j | 0 <= j < k && IsCandidate(t, window, g, j) ensures IsDoomed(t, window, g, over, j) {
      OlderGrows(t, g, j, k);
    }
  }

  /** Every landed row carries a SID, in one spelling, without a leading backslash. */
  ghost predicate Consistent(rows: seq<Row>) {
    && (forall r :: r in rows && r.landed ==> r.sid.Some? && StripSlashes(r.sid.value) == r.sid.value)
    && (forall r, q :: r in rows && q in rows && r.landed && q.landed && SameText(GroupOf(r), GroupOf(q)) ==>
          GroupOf(r) == GroupOf(q))
  }

  ghost predicate HasGroup(rows: seq<Row>, g: Sid) {
    exists i :: 0 <= i < |rows| && rows[i].landed && GroupOf(rows[i]) == g
  }

  lemma MatchesIsMembership(rows: seq<Row>, g: Sid, k: nat)
    requires Consistent(rows) && HasGroup(rows, g) && k < |rows| && rows[k].landed
    ensures Matches(rows[k], g) <==> GroupOf(rows[k]) == g
  {
    var i :| 0 <= i < |rows| && rows[i].landed && GroupOf(rows[i]) == g;
    assert rows[k] in rows && rows[i] in rows;
  }

  /** Trimming a SID takes exactly the doomed rows' sizes off its own total ... */
  lemma TrimTakes(t: seq<Row>, window: nat, g: Sid, over: int)
    requires Consistent(t) && HasGroup(t, g)
    ensures Total(t, g) == Total(Trim(t, window, g, over), g) + SumTo(t, |t|, Doomed(t, window, g, over))
  {
    var u := Trim(t, window, g, over);
    forall k | 0 <= k < |t|
      ensures IsIn(t, g, k) <==> IsIn(u, g, k) || IsDoomed(t, window, g, over, k) {
      if t[k].landed {
        MatchesIsMembership(t, g, k);
      }
    }
    SumSplits(t, u, |t|, InGroup(t, g), InGroup(u, g), Doomed(t, window, g, over));
  }

  /** ... and leaves every other total alone. */
  lemma TrimSparesOthers(t: seq<Row>, window: nat, g: Sid, over: int, other: Sid)
    requires Consistent(t) && HasGroup(t, g) && other != g
    ensures Total(Trim(t, window, g, over), other) == Total(t, other)
  {
    var u := Trim(t, window, g, over);
    forall k | 0 <= k < |t| ensures IsIn(u, other, k) == IsIn(t, other, k) {
      if t[k].landed {
        MatchesIsMembership(t, g, k);
      }
    }
    SumAgrees(u, t, |t|, InGroup(u, other), InGroup(t, other));
  }

  /** A SID over its quota ends within it exactly when its rows in the window cover the excess; otherwise
      the window holds none of its rows any more. */
  lemma TrimMeetsQuota(t: seq<Row>, window: nat, g: Sid, quota: nat)
    requires Consistent(t) && HasGroup(t, g) && Total(t, g) > quota
    ensures var over := Total(t, g) - quota;
            var after := Total(Trim(t, window, g, over), g);
            (after <= quota <==> InWindow(t, window, g) >= over) &&
            (after > quota ==> after == Total(t, g) - InWindow(t, window, g))
  {
    var over := Total(t, g) - quota;
    DoomedCover(t, window, g, over, |t|);
    TrimTakes(t, window, g, over);
  }

  // ------------------------------------------------------------------ the whole pass

  /** Lines of the GROUP BY's result, in any order. */
  ghost predicate Groups(rows: seq<Row>, groups: seq<Group>) {
    && (forall i, j :: 0 <= i < j < |groups| ==> groups[i].sid != groups[j].sid)
    && (forall i :: 0 <= i < |groups| ==> groups[i].total == Total(rows, groups[i].sid))
  }

  function Pass(rows: seq<Row>, groups: seq<Group>, quota: nat): (r: seq<Row>)
    ensures |r| == |rows|
  {
    if groups == [] then rows
    else
      Turn(Pass(rows, groups[..|groups| - 1], quota), groups[|groups| - 1], quota)
  }

  lemma {:induction false} PassKeeps(rows: seq<Row>, groups: seq<Group>, quota: nat, k: nat)
    requires k < |rows|
    ensures var r := Pass(rows, groups, quota)[k]; r == rows[k] || r == rows[k].(landed := false)
  {
    if groups != [] {
      PassKeeps(rows, groups[..|groups| - 1], quota, k);
    }
  }

  lemma PassConsistent(rows: seq<Row>, groups: seq<Group>, quota: nat)
    requires Consistent(rows)
    ensures Consistent(Pass(rows, groups, quota))
  {
    var u := Pass(rows, groups, quota);
    forall r | r in u && r.landed ensures r in rows {
      var k :| 0 <= k < |u| && u[k] == r;
      PassKeeps(rows, groups, quota, k);
    }
  }

  lemma {:induction false} PositiveHasGroup(t: seq<Row>, g: Sid, i: nat)
    requires i <= |t| && SumTo(t, i, InGroup(t, g)) > 0
    ensures HasGroup(t, g)
  {
    if i > 0 && !IsIn(t, g, i - 1) {
      PositiveHasGroup(t, g, i - 1);
    }
  }

  function AfterFirst(rows: seq<Row>, groups: seq<Group>, quota: nat, n: nat): seq<Row>
    requires n <= |groups|
  {
    Pass(rows, groups[..n], quota)
  }

  /** One turn of the pass. */
  function Turn(rows: seq<Row>, g: Group, quota: nat): (r: seq<Row>)
    ensures |r| == |rows|
  {
    if g.total <= quota then rows else Trim(rows, MAX_PER_SID, g.sid, g.total - quota)
  }

  lemma AfterNext(rows: seq<Row>, groups: seq<Group>, quota: nat, n: nat)
    requires n < |groups|
    ensures AfterFirst(rows, groups, quota, n + 1) == Turn(AfterFirst(rows, groups, quota, n), groups[n], quota)
  {
    assert groups[..n + 1][..n] == groups[..n];
  }

  lemma TurnSpares(rows: seq<Row>, g: Group, quota: nat, other: Sid)
    requires Consistent(rows) && Total(rows, g.sid) == g.total && other != g.sid
    ensures Total(Turn(rows, g, quota), other) == Total(rows, other)
  {
    if g.total > quota {
      PositiveHasGroup(rows, g.sid, |rows|);
      TrimSparesOthers(rows, MAX_PER_SID, g.sid, g.total - quota, other);
    }
  }

  lemma TurnMeets(rows: seq<Row>, g: Group, quota: nat)
    requires Consistent(rows) && Total(rows, g.sid) == g.total
    ensures var after := Total(Turn(rows, g, quota), g.sid);
            (g.total <= quota ==> after == g.total) &&
            (after <= quota <==> g.total <= quota || InWindow(rows, MAX_PER_SID, g.sid) >= g.total - quota)
  {
    if g.total > quota {
      PositiveHasGroup(rows, g.sid, |rows|);
      TrimMeetsQuota(rows, MAX_PER_SID, g.sid, quota);
    }
  }

  /** A SID's total changes only in its own turn. */
  lemma {:induction false} TotalChangesOnce(rows: seq<Row>, groups: seq<Group>, quota: nat, n: nat, k: nat)
    requires Consistent(rows) && Groups(rows, groups) && n <= |groups| && k < |groups|
    ensures Total(AfterFirst(rows, groups, quota, n), groups[k].sid) ==
            if k < n then Total(AfterFirst(rows, groups, quota, k + 1), groups[k].sid) else groups[k].total
    decreases n
  {
    if n == 0 {
      assert groups[..0] == [];
    } else if k != n - 1 {
      TotalChangesOnce(rows, groups, quota, n - 1, k);
      TotalChangesOnce(rows, groups, quota, n - 1, n - 1);
      AfterNext(rows, groups, quota, n - 1);
      PassConsistent(rows, groups[..n - 1], quota);
      assert groups[k].sid != groups[n - 1].sid;
      TurnSpares(AfterFirst(rows, groups, quota, n - 1), groups[n - 1], quota, groups[k].sid);
    }
  }

  /** After the pass a SID is within its quota exactly when it was before, or its rows in the window, as the
      earlier turns left it, covered its excess. A SID within its quota loses nothing. */
  lemma PassMeetsQuota(rows: seq<Row>, groups: seq<Group>, quota: nat, k: nat)
    requires Consistent(rows) && Groups(rows, groups) && k < |groups|
    ensures var g, after := groups[k], Total(Pass(rows, groups, quota), groups[k].sid);
            (g.total <= quota ==> after == g.total) &&
            (after <= quota <==>
               g.total <= quota || InWindow(AfterFirst(rows, groups, quota, k), MAX_PER_SID, g.sid) >= g.total - quota)
  {
    assert groups[..|groups|] == groups;
    TotalChangesOnce(rows, groups, quota, |groups|, k);
    TotalChangesOnce(rows, groups, quota, k, k);
    AfterNext(rows, groups, quota, k);
    PassConsistent(rows, groups[..k], quota);
    TurnMeets(AfterFirst(rows, groups, quota, k), groups[k], quota);
  }

  // ------------------------------------------------------------------ conditions on the rows before the pass

  lemma TurnKeepsOthersRows(rows: seq<Row>, g: Group, quota: nat, j: nat)
    requires Consistent(rows) && Total(rows, g.sid) == g.total && j < |rows| && GroupOf(rows[j]) != g.sid
    ensures Turn(rows, g, quota)[j] == rows[j]
  {
    if g.total > quota && rows[j].landed {
      PositiveHasGroup(rows, g.sid, |rows|);
      MatchesIsMembership(rows, g.sid, j);
    }
  }

  /** A SID's rows are all there when its turn comes. */
  lemma {:induction false} RowsAwaitTheirTurn(rows: seq<Row>, groups: seq<Group>, quota: nat, n: nat, k: nat, j: nat)
    requires Consistent(rows) && Groups(rows, groups) && n <= k < |groups|
    requires j < |rows| && GroupOf(rows[j]) == groups[k].sid
    ensures AfterFirst(rows, groups, quota, n)[j] == rows[j]
    decreases n
  {
    if n == 0 {
      assert groups[..0] == [];
    } else {
      RowsAwaitTheirTurn(rows, groups, quota, n - 1, k, j);
      TotalChangesOnce(rows, groups, quota, n - 1, n - 1);
      AfterNext(rows, groups, quota, n - 1);
      PassConsistent(rows, groups[..n - 1], quota);
      assert groups[n - 1].sid != groups[k].sid;
      TurnKeepsOthersRows(AfterFirst(rows, groups, quota, n - 1), groups[n - 1], quota, j);
    }
  }

  /** A turn brings a row forward by at most the window. */
  lemma {:induction false} TurnMovesForward(rows: seq<Row>, g: Group, quota: nat, i: nat)
    requires i <= |rows|
    ensures Before(Turn(rows, g, quota), i, Landed) <= Before(rows, i, Landed)
                                                    <= Before(Turn(rows, g, quota), i, Landed) + MAX_PER_SID
  {
    if i > 0 {
      TurnMovesForward(rows, g, quota, i - 1);
      PrefixStep(rows, i - 1, Landed);
      PrefixStep(Turn(rows, g, quota), i - 1, Landed);
    }
  }

  lemma {:induction false} PassMovesForward(rows: seq<Row>, groups: seq<Group>, quota: nat, n: nat, i: nat)
    requires i <= |rows| && n <= |groups|
    ensures var after := AfterFirst(rows, groups, quota, n);
            Before(after, i, Landed) <= Before(rows, i, Landed) <= Before(after, i, Landed) + MAX_PER_SID * n
    decreases n
  {
    if n == 0 {
      assert groups[..0] == [];
    } else {
      PassMovesForward(rows, groups, quota, n - 1, i);
      AfterNext(rows, groups, quota, n - 1);
      TurnMovesForward(AfterFirst(rows, groups, quota, n - 1), groups[n - 1], quota, i);
    }
  }

  lemma {:induction false} SumIncluded(t: seq<Row>, u: seq<Row>, i: nat, p: nat -> bool, q: nat -> bool)
    requires i <= |t| && i <= |u| && forall k :: 0 <= k < i && p(k) ==> q(k) && t[k].size == u[k].size
    ensures SumTo(t, i, p) <= SumTo(u, i, q)
  {
    if i > 0 {
      SumIncluded(t, u, i - 1, p, q);
    }
  }

  /** When its turn comes a SID has in the window at least what it had there at first, and at most what it
      had in a window longer by one window for every earlier turn. */
  lemma WindowGrows(rows: seq<Row>, groups: seq<Group>, quota: nat, k: nat)
    requires Consistent(rows) && Groups(rows, groups) && k < |groups| && groups[k].total > 0
    ensures var g := groups[k].sid;
            InWindow(rows, MAX_PER_SID, g) <= InWindow(AfterFirst(rows, groups, quota, k), MAX_PER_SID, g)
                                           <= InWindow(rows, MAX_PER_SID * (k + 1), g)
  {
    var g, after := groups[k].sid, AfterFirst(rows, groups, quota, k);
    PositiveHasGroup(rows, g, |rows|);
    forall i | 0 <= i < |rows|
      ensures IsCandidate(rows, MAX_PER_SID, g, i) ==> IsCandidate(after, MAX_PER_SID, g, i)
      ensures IsCandidate(after, MAX_PER_SID, g, i) ==> IsCandidate(rows, MAX_PER_SID * (k + 1), g, i)
      ensures after[i].size == rows[i].size {
      CandidateKept(rows, groups, quota, k, i);
    }
    SumIncluded(rows, after, |rows|, Candidates(rows, MAX_PER_SID, g), Candidates(after, MAX_PER_SID, g));
    SumIncluded(after, rows, |rows|, Candidates(after, MAX_PER_SID, g), Candidates(rows, MAX_PER_SID * (k + 1), g));
  }

  lemma CandidateKept(rows: seq<Row>, groups: seq<Group>, quota: nat, k: nat, i: nat)
    requires Consistent(rows) && Groups(rows, groups) && k < |groups| && HasGroup(rows, groups[k].sid) && i < |rows|
    ensures var g, after := groups[k].sid, AfterFirst(rows, groups, quota, k);
            (IsCandidate(rows, MAX_PER_SID, g, i) ==> IsCandidate(after, MAX_PER_SID, g, i)) &&
            (IsCandidate(after, MAX_PER_SID, g, i) ==> IsCandidate(rows, MAX_PER_SID * (k + 1), g, i)) &&
            after[i].size == rows[i].size
  {
    var g := groups[k].sid;
    PassKeeps(rows, groups[..k], quota, i);
    PassMovesForward(rows, groups, quota, k, i);
    if rows[i].landed && Matches(rows[i], g) {
      MatchesIsMembership(rows, g, i);
      RowsAwaitTheirTurn(rows, groups, quota, k, k, i);
    }
  }

  /** In terms of the rows before the pass: a SID ends within its quota if its rows among the 4096 oldest
      cover its excess, and only if its rows among the 4096 (k + 1) oldest do, when k SIDs have their turn
      before it. For the first SID the two are the same. */
  lemma PassMeetsQuotaFromTheStart(rows: seq<Row>, groups: seq<Group>, quota: nat, k: nat)
    requires Consistent(rows) && Groups(rows, groups) && k < |groups| && groups[k].total > quota
    ensures var g, over, after := groups[k].sid, groups[k].total - quota, Total(Pass(rows, groups, quota), groups[k].sid);
            (InWindow(rows, MAX_PER_SID, g) >= over ==> after <= quota) &&
            (after <= quota ==> InWindow(rows, MAX_PER_SID * (k + 1), g) >= over)
  {
    PassMeetsQuota(rows, groups, quota, k);
    WindowGrows(rows, groups, quota, k);
  }

  /** With at most 4096 landed rows in all, everybody ends within the quota. */
  lemma SmallTableMeetsQuota(rows: seq<Row>, groups: seq<Group>, quota: nat, k: nat)
    requires Consistent(rows) && Groups(rows, groups) && k < |groups| && Count(rows, Landed) <= 4096
    ensures Total(Pass(rows, groups, quota), groups[k].sid) <= quota
  {
    var g := groups[k].sid;
    if groups[k].total <= quota {
      PassMeetsQuota(rows, groups, quota, k);
    } else {
      PositiveHasGroup(rows, g, |rows|);
      forall i | 0 <= i < |rows| && IsIn(rows, g, i) ensures IsCandidate(rows, MAX_PER_SID, g, i) {
        MatchesIsMembership(rows, g, i);
        PrefixStep(rows, i, Landed);
        BeforeGrows(rows, i + 1, |rows|, Landed);
        BeforeAll(rows, Landed);
      }
      SumIncluded(rows, rows, |rows|, InGroup(rows, g), Candidates(rows, MAX_PER_SID, g));
      PassMeetsQuotaFromTheStart(rows, groups, quota, k);
    }
  }

  /** A row without a SID is purged on behalf of whoever is over, who then stays over. */
  lemma RowWithoutSidIsPurgedForAStranger(sid: Sid, quota: nat)
    requires sid != "" && StripSlashes(sid) == sid
    ensures var rows := [Row(true, None, 1), Row(true, Some(sid), quota + 1)];
            var after := Trim(rows, MAX_PER_SID, sid, Total(rows, sid) - quota);
            !after[0].landed && after[1].landed && Total(after, sid) > quota
  {
    var rows := [Row(true, None, 1), Row(true, Some(sid), quota + 1)];
    assert Before(rows, 0, Landed) == 0;
    assert SumTo(rows, 1, InGroup(rows, sid)) == 0;
    assert Total(rows, sid) == quota + 1;
    assert SumTo(rows, 1, Matching(rows, sid)) == 1;
    var after := Trim(rows, MAX_PER_SID, sid, 1);
    assert after == [Row(false, None, 1), rows[1]];
    assert SumTo(after, 1, InGroup(after, sid)) == 0;
  }
}
