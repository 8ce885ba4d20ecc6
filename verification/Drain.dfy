/**
 The landing loop of the maintenance pass. The table is seen as its rows in deletion order: landing a row
 changes its status, not its place.
 */
module Drain {
  import opened Common
  import opened Rows

  /** What decides whether a row can land: `movable` covers every early exit of StoreLandItem up to and
      including the rename, `recordable` whether the status update that follows succeeds, and `moved`
      whether the file has left staging. */
  datatype Row = Row(staged: bool, movable: bool, recordable: bool, moved: bool)

  /** StoreLandItem and the update it ends with, whose result it ignores. */
  function Attempt(r: Row): Row {
    if !r.staged || r.moved || !r.movable then r
    else r.(moved := true, staged := !r.recordable)
  }

  /** A staged row that no number of attempts lands. */
  predicate Stuck(r: Row) {
    r.staged && (r.moved || !r.movable || !r.recordable)
  }

  /** A staged row that its next attempt lands. */
  predicate Free(r: Row) {
    r.staged && !Stuck(r)
  }

  predicate Staged(r: Row) {
    r.staged
  }

  /** Attempts the first `k` staged rows. */
  function LandFirst(t: seq<Row>, k: nat): (u: seq<Row>)
    ensures |u| == |t|
  {
    seq(|t|, i requires 0 <= i < |t| => if Before(t, i, Staged) < k then Attempt(t[i]) else t[i])
  }

  /** Attempts every staged row. */
  function Settled(t: seq<Row>): (u: seq<Row>)
    ensures |u| == |t|
  {
    seq(|t|, i requires 0 <= i < |t| => Attempt(t[i]))
  }

  /** The loop's effect when the stop event is set after `budget` attempts; the flag says whether the loop
      saw it. */
  function Drained(t: seq<Row>, batch: nat, budget: nat): (r: (seq<Row>, bool))
    requires batch > 0
    ensures |r.0| == |t|
    decreases budget
  {
    var n := Min(batch, Count(t, Staged));
    if n == 0 then (t, false)
    else if budget < n then (LandFirst(t, budget), true)
    else if n < batch then (LandFirst(t, n), false)
    else Drained(LandFirst(t, n), batch, budget - n)
  }

  // ------------------------------------------------------------------ the service's code

  class Items {
    var rows: seq<Row>

    constructor (rows: seq<Row>)
      ensures this.rows == rows
    {
      this.rows := rows;
    }

    /** DbListStaged. */
    method ListStaged(limit: nat) returns (items: seq<nat>)
      ensures Lists(items, rows, Staged, limit)
    {
      items := Fetch(rows, Staged, limit);
    }

    /** StoreLandItem on row `i`; the result counts as landed even when the update failed. */
    method LandItem(i: nat) returns (moved: bool)
      requires i < |rows|
      modifies this
      ensures rows == old(rows)[i := Attempt(old(rows)[i])]
      ensures moved <==> old(rows)[i].staged && !old(rows)[i].moved && old(rows)[i].movable
    {
      var r := rows[i];
      if !r.staged || r.moved || !r.movable {
        return false;
      }
      rows := rows[i := r.(moved := true, staged := !r.recordable)];
      return true;
    }

    /** The loop of MaintenancePass. The stop event is set after `budget` attempts. */
    method Drain(stagedBatch: nat, budget: nat) returns (stopped: bool)
      modifies this
      ensures (rows, stopped) == Drained(old(rows), BatchSize(stagedBatch), budget)
    {
      var batch := BatchSize(stagedBatch);
      var left := budget;
      while true
        invariant 0 <= left <= budget && Drained(rows, batch, left) == Drained(old(rows), batch, budget)
        decreases left
      {
        var items := ListStaged(batch);
        if |items| == 0 {
          return false;
        }
        ghost var t := rows;
        var i := 0;
        LandNone(t);
        while i < |items|
          invariant 0 <= i <= |items| && i <= left
          invariant rows == LandFirst(t, i)
        {
          if i == left {
            return true;
          }
          LandNext(t, items, batch, i);
          var landed := LandItem(items[i]);
          i := i + 1;
        }
        left := left - |items|;
        if |items| < batch {
          return false;
        }
      }
    }
  }

  /** The 32-bit setting read as a signed number; unless positive it means the default. */
  function BatchSize(stagedBatch: nat): (n: nat)
    ensures 0 < n < 0x8000_0000
  {
    if stagedBatch == 0 || stagedBatch >= 0x8000_0000 then 500 else stagedBatch
  }

  // ------------------------------------------------------------------ landing step by step

  lemma LandNone(t: seq<Row>)
    ensures LandFirst(t, 0) == t
  {
  }

  lemma LandNext(t: seq<Row>, items: seq<nat>, limit: nat, k: nat)
    requires Lists(items, t, Staged, limit) && k < |items|
    ensures LandFirst(t, k)[items[k]] == t[items[k]]
    ensures LandFirst(t, k + 1) == LandFirst(t, k)[items[k] := Attempt(t[items[k]])]
  {
    var u, v := LandFirst(t, k), LandFirst(t, k + 1);
    forall i | 0 <= i < |t| ensures v[i] == u[items[k] := Attempt(t[items[k]])][i] {
      if Before(t, i, Staged) == k && i != items[k] {
        RankIsUnique(t, i, items[k], Staged);
      }
    }
  }

  // ------------------------------------------------------------------ one round

  lemma {:induction false} StuckStay(t: seq<Row>, n: nat, i: nat)
    requires i <= |t|
    ensures Before(LandFirst(t, n), i, Stuck) == Before(t, i, Stuck)
  {
    if i > 0 {
      StuckStay(t, n, i - 1);
      PrefixStep(t, i - 1, Stuck);
      PrefixStep(LandFirst(t, n), i - 1, Stuck);
    }
  }

  /** A round over `n` rows settles every free row among them, so what it does not reach is bounded. */
  lemma {:induction false} Progress(t: seq<Row>, n: nat, i: nat)
    requires i <= |t|
    ensures Before(LandFirst(t, n), i, Free) + Min(n, Before(t, i, Staged)) <= Before(t, i, Free) + Before(t, i, Stuck)
  {
    if i > 0 {
      Progress(t, n, i - 1);
      PrefixStep(t, i - 1, Free);
      PrefixStep(t, i - 1, Stuck);
      PrefixStep(t, i - 1, Staged);
      PrefixStep(LandFirst(t, n), i - 1, Free);
    }
  }

  lemma {:induction false} StuckAreStaged(t: seq<Row>, i: nat)
    requires i <= |t|
    ensures Before(t, i, Free) + Before(t, i, Stuck) == Before(t, i, Staged)
  {
    if i > 0 {
      StuckAreStaged(t, i - 1);
      PrefixStep(t, i - 1, Free);
      PrefixStep(t, i - 1, Stuck);
      PrefixStep(t, i - 1, Staged);
    }
  }

  lemma LastRoundSettles(t: seq<Row>, n: nat)
    requires n >= Count(t, Staged)
    ensures LandFirst(t, n) == Settled(t)
  {
    forall i | 0 <= i < |t| ensures LandFirst(t, n)[i] == Attempt(t[i]) {
      PrefixStep(t, i, Staged);
      BeforeGrows(t, i + 1, |t|, Staged);
      BeforeAll(t, Staged);
    }
  }

  // ------------------------------------------------------------------ what a pass does to one row

  lemma {:induction false} AttemptedAtMostOnce(t: seq<Row>, batch: nat, budget: nat, i: nat)
    requires batch > 0 && i < |t|
    ensures var r := Drained(t, batch, budget).0[i]; r == t[i] || r == Attempt(t[i])
    decreases budget
  {
    var n := Min(batch, Count(t, Staged));
    if 0 < n <= budget && n == batch {
      AttemptedAtMostOnce(LandFirst(t, n), batch, budget - n, i);
    }
  }

  /** However long the pass runs, a row leaves the staged ones only with its file moved and the update made; a
      file is moved only for a staged row that allows it, and then the row stays staged exactly when the update
      failed. */
  lemma LandsOnlyWhatMoved(t: seq<Row>, batch: nat, budget: nat, i: nat)
    requires batch > 0 && i < |t|
    ensures var r := Drained(t, batch, budget).0[i];
            && r.movable == t[i].movable && r.recordable == t[i].recordable && (t[i].moved ==> r.moved)
            && (r.staged ==> t[i].staged)
            && (t[i].staged && !r.staged ==> r.moved && !t[i].moved && t[i].movable && t[i].recordable)
            && (r.moved && !t[i].moved ==> t[i].staged && t[i].movable && (r.staged <==> !t[i].recordable))
  {
    AttemptedAtMostOnce(t, batch, budget, i);
  }

  // ------------------------------------------------------------------ termination

  /** With fewer unlandable rows than a batch holds the loop ends by itself, having attempted every row: what
      stays staged is exactly the unlandable rows. */
  lemma {:induction false} DrainEnds(t: seq<Row>, batch: nat, budget: nat)
    requires batch > 0 && Count(t, Stuck) < batch && budget >= (Count(t, Free) + 1) * batch
    ensures Drained(t, batch, budget) == (Settled(t), false)
    decreases budget
  {
    var n := Min(batch, Count(t, Staged));
    BeforeAll(t, Staged);
    BeforeAll(t, Stuck);
    BeforeAll(t, Free);
    StuckAreStaged(t, |t|);
    FewerBatches(0, Count(t, Free), batch, budget);
    if n < batch {
      LastRoundSettles(t, n);
      LandNone(t);
    } else {
      var u := LandFirst(t, n);
      Progress(t, n, |t|);
      StuckStay(t, n, |t|);
      BeforeAll(u, Free);
      BeforeAll(u, Stuck);
      assert Count(u, Free) + 1 <= Count(t, Free);
      FewerBatches(Count(u, Free) + 1, Count(t, Free), batch, budget);
      DrainEnds(u, batch, budget - n);
      assert Settled(u) == Settled(t);
    }
  }

  lemma FewerBatches(fewer: nat, f: nat, batch: nat, budget: nat)
    requires fewer <= f && budget >= (f + 1) * batch
    ensures budget - batch >= fewer * batch
  {
    assert (f + 1) * batch == f * batch + batch;
    assert f * batch >= fewer * batch;
  }

  lemma SettledLeavesTheStuck(t: seq<Row>, i: nat)
    requires i < |t|
    ensures Settled(t)[i].staged <==> Stuck(t[i])
  {
  }

  /** With a whole batch of unlandable rows it never ends: however long the service runs, only the stop
      event gets it out. */
  lemma {:induction false} DrainNeverEnds(t: seq<Row>, batch: nat, budget: nat)
    requires batch > 0 && Count(t, Stuck) >= batch
    ensures Drained(t, batch, budget).1
    decreases budget
  {
    BeforeAll(t, Staged);
    BeforeAll(t, Stuck);
    StuckAreStaged(t, |t|);
    if budget >= batch {
      var u := LandFirst(t, batch);
      StuckStay(t, batch, |t|);
      BeforeAll(u, Stuck);
      DrainNeverEnds(u, batch, budget - batch);
    }
  }

  /** Exactly when the pass gets past its landing loop without being stopped. */
  lemma DrainTerminates(t: seq<Row>, batch: nat)
    requires batch > 0
    ensures (exists budget: nat :: !Drained(t, batch, budget).1) <==> Count(t, Stuck) < batch
  {
    if Count(t, Stuck) < batch {
      DrainEnds(t, batch, (Count(t, Free) + 1) * batch);
    } else {
      forall budget: nat ensures Drained(t, batch, budget).1 {
        DrainNeverEnds(t, batch, budget);
      }
    }
  }

  /** In terms of the setting: a positive 32-bit number is the batch size, anything else means 500. */
  lemma SettingDecides(t: seq<Row>, stagedBatch: nat)
    ensures (exists budget: nat :: !Drained(t, BatchSize(stagedBatch), budget).1)
            <==> Count(t, Stuck) < if 1 <= stagedBatch <= 2147483647 then stagedBatch else 500
  {
    DrainTerminates(t, BatchSize(stagedBatch));
  }

  // ------------------------------------------------------------------ which rows land

  /** A row with a whole batch of unlandable rows before it is never attempted. */
  lemma {:induction false} BehindABatchNeverLands(t: seq<Row>, batch: nat, budget: nat, i: nat)
    requires batch > 0 && i < |t| && Before(t, i, Stuck) >= batch
    ensures Drained(t, batch, budget).0[i] == t[i]
    decreases budget
  {
    StuckAreStaged(t, i);
    BeforeGrows(t, i, |t|, Staged);
    BeforeAll(t, Staged);
    if budget >= batch {
      StuckStay(t, batch, i);
      BehindABatchNeverLands(LandFirst(t, batch), batch, budget - batch, i);
    }
  }

  lemma {:induction false} StuckNeverLands(t: seq<Row>, batch: nat, budget: nat, i: nat)
    requires batch > 0 && i < |t| && Stuck(t[i])
    ensures Stuck(Drained(t, batch, budget).0[i])
    decreases budget
  {
    var n := Min(batch, Count(t, Staged));
    if 0 < n <= budget && n == batch {
      StuckNeverLands(LandFirst(t, n), batch, budget - n, i);
    }
  }

  lemma {:induction false} LandedStays(t: seq<Row>, batch: nat, budget: nat, i: nat)
    requires batch > 0 && i < |t| && !t[i].staged
    ensures Drained(t, batch, budget).0[i] == t[i]
    decreases budget
  {
    var n := Min(batch, Count(t, Staged));
    if 0 < n <= budget && n == batch {
      LandedStays(LandFirst(t, n), batch, budget - n, i);
    }
  }

  /** Any other row does land, given time, whether or not the loop ever ends. */
  lemma {:induction false} OthersLand(t: seq<Row>, batch: nat, budget: nat, i: nat)
    requires batch > 0 && i < |t| && Free(t[i]) && Before(t, i, Stuck) < batch
    requires budget >= (Before(t, i, Free) + 1) * batch
    ensures Drained(t, batch, budget).0[i] == Attempt(t[i])
    decreases budget
  {
    var n := Min(batch, Count(t, Staged));
    PrefixStep(t, i, Staged);
    BeforeGrows(t, i + 1, |t|, Staged);
    BeforeAll(t, Staged);
    StuckAreStaged(t, i);
    var u := LandFirst(t, n);
    FewerBatches(0, Before(t, i, Free), batch, budget);
    if n == batch {
      if Before(t, i, Staged) < n {
        LandedStays(u, batch, budget - n, i);
      } else {
        Progress(t, n, i);
        StuckStay(t, n, i);
        FewerBatches(Before(u, i, Free) + 1, Before(t, i, Free), batch, budget);
        OthersLand(u, batch, budget - n, i);
      }
    }
  }

  /** Exactly which staged rows can land: the landable ones with less than a batch of unlandable older rows. */
  lemma EventuallyLands(t: seq<Row>, batch: nat, i: nat)
    requires batch > 0 && i < |t| && t[i].staged
    ensures (exists budget: nat :: !Drained(t, batch, budget).0[i].staged)
            <==> Free(t[i]) && Before(t, i, Stuck) < batch
  {
    if Stuck(t[i]) {
      forall budget: nat ensures Drained(t, batch, budget).0[i].staged {
        StuckNeverLands(t, batch, budget, i);
      }
    } else if Before(t, i, Stuck) >= batch {
      forall budget: nat ensures Drained(t, batch, budget).0[i].staged {
        BehindABatchNeverLands(t, batch, budget, i);
      }
    } else {
      OthersLand(t, batch, (Before(t, i, Free) + 1) * batch, i);
    }
  }

  /** The pass that runs at shutdown starts with the stop event already set: with anything staged it lands
      nothing, and leaves before it reaches the pending restore commands. */
  lemma ShutdownPassLandsNothing(t: seq<Row>, batch: nat)
    requires batch > 0
    ensures Drained(t, batch, 0).0 == t
    ensures Drained(t, batch, 0).1 <==> Count(t, Staged) > 0
  {
  }
}
