/**
 Restoring deleted entries over a modelled file system: the directory-chain loop, one restore with all
 its refusals, and the ordered restore of a whole tree. The file system ignores case: an entry's key is its
 DOS path in upper case; `refused` holds the keys it will not let the service create.
 */
module TreeRestore {
  import opened Common
  import opened Paths
  import Rows

  type ItemId = int

  datatype Kind = Dir | File(content: nat)

  type Nodes = map<string, Kind>

  // ------------------------------------------------------------------ paths

  /** "X:\a\b": at least one component, none empty. */
  predicate Clean(p: string) {
    && |p| > 3 && p[0] != '\\' && p[1] == ':' && p[2] == '\\' && p[|p| - 1] != '\\'
    && forall i :: 2 <= i < |p| - 1 ==> !DoubledAt(p, i)
  }

  predicate DoubledAt(p: string, i: nat)
    requires i + 1 < |p|
  {
    p[i] == '\\' && p[i + 1] == '\\'
  }

  /** Folding leaves separators and colons where they are. */
  lemma FoldKeepsMarks(p: string)
    ensures forall i :: 0 <= i < |p| ==> (Fold(p)[i] == '\\' <==> p[i] == '\\') && (Fold(p)[i] == ':' <==> p[i] == ':')
  {
  }

  lemma ParentFolds(p: string)
    ensures LastSlash(Fold(p)) == LastSlash(p) && Parent(Fold(p)) == Fold(Parent(p))
  {
    FoldKeepsMarks(p);
    var k := LastSlash(p);
    if k >= 0 {
      LastSlashAt(Fold(p), k);
      FoldSlice(p, 0, k);
    }
  }

  /** Drive roots are always directories. */
  predicate IsDir(n: Nodes, p: string) {
    |p| <= 3 || (p in n && n[p] == Dir)
  }

  /** Proper ancestors of `p` below the drive root. */
  function Ancestors(p: string): set<string> {
    set i | 3 < i < |p| && p[i] == '\\' :: p[..i]
  }

  predicate IsAncestor(q: string, p: string) {
    3 < |q| < |p| && p[|q|] == '\\' && q == p[..|q|]
  }

  lemma InAncestors(q: string, p: string)
    ensures q in Ancestors(p) <==> IsAncestor(q, p)
  {
  }

  /** `n` with the missing ones of `s` added as directories. */
  function Fill(n: Nodes, s: set<string>): Nodes {
    (map q | q in s :: Dir) + n
  }

  // ------------------------------------------------------------------ file-system calls

  /** CreateDirectoryW with "already exists" counted as success, whatever it is that exists. */
  function Create(n: Nodes, refused: set<string>, p: string): (bool, Nodes) {
    if p in n then (true, n)
    else if !IsDir(n, Parent(p)) || p in refused then (false, n)
    else (true, n[p := Dir])
  }

  /** MoveFileExW within the volume, replacing an existing target. */
  function MoveTo(n: Nodes, refused: set<string>, kind: Kind, dst: string): (bool, Nodes) {
    if !IsDir(n, Parent(dst)) || dst in refused then (false, n) else (true, n[dst := kind])
  }

  function TrimSlashes(d: string): (r: string)
    requires |d| >= 3
    ensures |r| >= 3 && r <= d
  {
    if |d| > 3 && d[|d| - 1] == '\\' then TrimSlashes(d[..|d| - 1]) else d
  }

  /** The levels of `d` from position `i` on, then `d` itself. */
  function Levels(n: Nodes, refused: set<string>, d: string, i: nat): (bool, Nodes)
    decreases |d| - i
  {
    if i >= |d| then Create(n, refused, d)
    else if d[i] != '\\' then Levels(n, refused, d, i + 1)
    else
      var (ok, m) := Create(n, refused, d[..i]);
      if !ok then (false, m) else Levels(m, refused, d, i + 1)
  }

  function Chain(n: Nodes, refused: set<string>, dir: string): (bool, Nodes) {
    if |dir| < 3 || |dir| >= MAX_RECON_PATH || dir[0] == '\\' || dir[1] != ':' then (false, n)
    else if |dir| == 3 then (true, n)
    else Levels(n, refused, TrimSlashes(dir), 3)
  }

  // ------------------------------------------------------------------ one restore

  /** A row as the restore uses it: its resolved destination, if its volume resolves. */
  datatype Row = Row(id: ItemId, dst: Option<string>)

  datatype Outcome =
    Restored | NotLive | SourceMissing | NoDestination | NotAllowed | TargetExists | MoveFailed

  /** The file system, the stored copies by row, and the rows still landed or staged. */
  datatype World = World(nodes: Nodes, store: map<ItemId, Kind>, live: set<ItemId>)

  /** One restore, given whether its destination is allowed. */
  function RestoreOne(allowed: bool, refused: set<string>, w: World, row: Row): (Outcome, World) {
    if row.id !in w.live then (NotLive, w)
    else if row.id !in w.store then (SourceMissing, w)
    else if row.dst.None? then (NoDestination, w)
    else if !allowed then (NotAllowed, w)
    else if |row.dst.value| <= 3 || Fold(row.dst.value) in w.nodes then (TargetExists, w)
    else
      var key := Fold(row.dst.value);
      var parents := Chain(w.nodes, refused, Parent(key)).1;
      var (ok, nodes) := MoveTo(parents, refused, w.store[row.id], key);
      if ok then (Restored, World(nodes, w.store - {row.id}, w.live - {row.id}))
      else (MoveFailed, w.(nodes := nodes))
  }

  ghost predicate Permitted(shares: seq<string>, row: Row) {
    row.dst.Some? && Allowed(shares, row.dst.value)
  }

  ghost function RestoreAll(shares: seq<string>, refused: set<string>, w: World, rows: seq<Row>)
    : (r: (seq<Outcome>, World))
    ensures |r.0| == |rows|
  {
    if rows == [] then ([], w)
    else
      var k := |rows| - 1;
      var (before, m) := RestoreAll(shares, refused, w, rows[..k]);
      var (last, t) := RestoreOne(Permitted(shares, rows[k]), refused, m, rows[k]);
      (before + [last], t)
  }

  /** The service's state, updated in place. */
  class Restorer {
    var nodes: Nodes
    var store: map<ItemId, Kind>
    var live: set<ItemId>
    const refused: set<string>
    const shares: seq<string>

    ghost function Value(): World
      reads this
    {
      World(nodes, store, live)
    }

    method CreateDirectory(p: string) returns (ok: bool)
      modifies this`nodes
      ensures (ok, nodes) == Create(old(nodes), refused, Fold(p))
    {
      var key := Fold(p);
      if key in nodes {
        return true;
      }
      if !IsDir(nodes, Parent(key)) || key in refused {
        return false;
      }
      nodes := nodes[key := Dir];
      ok := true;
    }

    method EnsureDirectoryChain(dir: string) returns (ok: bool)
      modifies this`nodes
      ensures (ok, nodes) == Chain(old(nodes), refused, Fold(dir))
    {
      FoldKeepsMarks(dir);
      ghost var key := Fold(dir);
      if |dir| < 3 || dir[0] == '\\' || dir[1] != ':' || |dir| >= MAX_RECON_PATH {
        return false;
      }
      if |dir| == 3 {
        return true;
      }
      var len := |dir|;
      assert key[..len] == key;
      while len > 3 && dir[len - 1] == '\\'
        invariant 3 <= len <= |dir|
        invariant TrimSlashes(key) == TrimSlashes(key[..len])
      {
        assert key[..len][..len - 1] == key[..len - 1];
        len := len - 1;
      }
      var buf, p := dir[..len], 3;
      FoldSlice(dir, 0, len);
      FoldKeepsMarks(buf);
      assert Fold(buf) == key[..len];
      while p < len
        invariant 3 <= p <= len
        invariant Levels(nodes, refused, Fold(buf), p) == Levels(old(nodes), refused, Fold(buf), 3)
      {
        FoldSlice(buf, 0, p);
        if buf[p] == '\\' {
          ok := CreateDirectory(buf[..p]);
          if !ok {
            return false;
          }
        }
        p := p + 1;
      }
      ok := CreateDirectory(buf);
    }

    method RestoreItem(row: Row) returns (outcome: Outcome)
      modifies this
      ensures (outcome, Value()) == RestoreOne(Permitted(shares, row), refused, old(Value()), row)
    {
      if row.id !in live {
        return NotLive;
      }
      if row.id !in store {
        return SourceMissing;
      }
      if row.dst.None? {
        return NoDestination;
      }
      var dst := row.dst.value;
      var allowed := DestIsAllowed(dst, shares);
      if !allowed {
        return NotAllowed;
      }
      var key := Fold(dst);
      if |dst| <= 3 || key in nodes {
        return TargetExists;
      }
      ParentFolds(dst);
      var made := EnsureDirectoryChain(Parent(dst));
      if !IsDir(nodes, Parent(key)) || key in refused {
        return MoveFailed;
      }
      nodes := nodes[key := store[row.id]];
      store := store - {row.id};
      live := live - {row.id};
      outcome := Restored;
    }

    /** The loop of RestoreTreeByPrefix over the rows its query returned; `stopAt` is how many entries
        were handled when the stop event was seen. */
    method RestoreTree(rows: seq<Row>, stopAt: nat) returns (okCount: nat, failCount: nat, ghost outcomes: seq<Outcome>)
      modifies this
      ensures var n := if stopAt < |rows| then stopAt else |rows|;
              (outcomes, Value()) == RestoreAll(shares, refused, old(Value()), rows[..n])
      ensures okCount == RestoredAmong(outcomes) && okCount + failCount == |outcomes|
      ensures failCount == 0 <==> AllRestored(outcomes)
    {
      okCount, failCount, outcomes := 0, 0, [];
      var i := 0;
      while i < |rows|
        invariant 0 <= i <= |rows| && i <= stopAt
        invariant (outcomes, Value()) == RestoreAll(shares, refused, old(Value()), rows[..i])
        invariant okCount == RestoredAmong(outcomes) && okCount + failCount == |outcomes|
        invariant failCount == 0 <==> AllRestored(outcomes)
      {
        if i == stopAt {
          break;
        }
        RestoreAllSnoc(shares, refused, old(Value()), rows, i);
        var outcome := RestoreItem(rows[i]);
        if outcome == Restored {
          okCount := okCount + 1;
        } else {
          failCount := failCount + 1;
        }
        AllRestoredSnoc(outcomes, outcome);
        RestoredSnoc(outcomes, outcome);
        outcomes := outcomes + [outcome];
        i := i + 1;
      }
      assert rows[..|rows|] == rows;
    }
  }

  ghost predicate AllRestored(outcomes: seq<Outcome>) {
    forall i :: 0 <= i < |outcomes| ==> outcomes[i] == Restored
  }

  function RestoredAmong(outcomes: seq<Outcome>): nat {
    Rows.Count(outcomes, (o: Outcome) => o == Restored)
  }

  lemma RestoredSnoc(outcomes: seq<Outcome>, o: Outcome)
    ensures RestoredAmong(outcomes + [o]) == RestoredAmong(outcomes) + if o == Restored then 1 else 0
  {
    assert (outcomes + [o])[..|outcomes|] == outcomes;
  }

  lemma AllRestoredSnoc(outcomes: seq<Outcome>, o: Outcome)
    ensures AllRestored(outcomes + [o]) <==> AllRestored(outcomes) && o == Restored
  {
    var longer := outcomes + [o];
    assert longer[|outcomes|] == o;
    if AllRestored(longer) {
      assert forall i :: 0 <= i < |outcomes| ==> longer[i] == outcomes[i];
    }
  }

  lemma RestoreAllSnoc(shares: seq<string>, refused: set<string>, w: World, rows: seq<Row>, i: nat)
    requires i < |rows|
    ensures var (before, m) := RestoreAll(shares, refused, w, rows[..i]);
            var (last, t) := RestoreOne(Permitted(shares, rows[i]), refused, m, rows[i]);
            RestoreAll(shares, refused, w, rows[..i + 1]) == (before + [last], t)
  {
    assert rows[..i + 1][..i] == rows[..i];
  }

  // ------------------------------------------------------------------ the directory chain

  /** Every entry sits in a directory. */
  ghost predicate WellFormed(n: Nodes) {
    forall p {:trigger Sits(n, p)} :: p in n ==> Sits(n, p)
  }

  predicate Sits(n: Nodes, p: string) {
    Clean(p) && IsDir(n, Parent(p))
  }

  lemma CleanPrefix(p: string, i: nat)
    requires Clean(p) && 3 < i < |p| && p[i] == '\\'
    ensures Clean(p[..i])
  {
    assert !DoubledAt(p, 2) && !DoubledAt(p, i - 1);
    forall j | 2 <= j < i - 1 ensures !DoubledAt(p[..i], j) {
      assert !DoubledAt(p, j);
    }
  }

  /** In a well-formed file system every proper ancestor of an existing entry is a directory. */
  lemma {:induction false} AncestorsAreDirs(n: Nodes, p: string, q: string)
    requires WellFormed(n) && p in n && q in Ancestors(p)
    ensures q in n && n[q] == Dir
    decreases |p|
  {
    var i :| 3 < i < |p| && p[i] == '\\' && q == p[..i];
    var k := LastSlash(p);
    assert Sits(n, p);
    if k > i {
      assert p[..k][..i] == q && p[..k][i] == '\\';
      AncestorsAreDirs(n, Parent(p), q);
    }
  }

  lemma AddKeepsWellFormed(n: Nodes, p: string, kind: Kind)
    requires WellFormed(n) && Clean(p) && p !in n && IsDir(n, Parent(p))
    ensures WellFormed(n[p := kind]) && n.Items <= n[p := kind].Items
  {
    var m := n[p := kind];
    forall q | q in m ensures Sits(m, q) {
      if q != p {
        assert Sits(n, q);
      }
    }
    forall q | q in n ensures (q, n[q]) in m.Items {
    }
  }

  lemma CreateKeepsWellFormed(n: Nodes, refused: set<string>, p: string)
    requires WellFormed(n) && Clean(p)
    ensures var (ok, m) := Create(n, refused, p);
            WellFormed(m) && n.Items <= m.Items && (ok ==> p in m) && m.Keys <= n.Keys + {p}
  {
    if p !in n && IsDir(n, Parent(p)) && p !in refused {
      AddKeepsWellFormed(n, p, Dir);
    }
  }

  lemma {:induction false} LevelsKeepWellFormed(n: Nodes, refused: set<string>, d: string, i: nat)
    requires WellFormed(n) && Clean(d) && 3 <= i
    ensures var (ok, m) := Levels(n, refused, d, i);
            WellFormed(m) && n.Items <= m.Items && (ok ==> d in m) && m.Keys <= n.Keys + Ancestors(d) + {d}
    decreases |d| - i
  {
    if i >= |d| {
      CreateKeepsWellFormed(n, refused, d);
    } else if d[i] != '\\' {
      LevelsKeepWellFormed(n, refused, d, i + 1);
    } else {
      var (ok, m) := Create(n, refused, d[..i]);
      LevelIsClean(d, i);
      CreateKeepsWellFormed(n, refused, d[..i]);
      if ok {
        LevelsKeepWellFormed(m, refused, d, i + 1);
      }
    }
  }

  lemma LevelIsClean(d: string, i: nat)
    requires Clean(d) && 3 <= i < |d| && d[i] == '\\'
    ensures Clean(d[..i]) && d[..i] in Ancestors(d)
  {
    assert !DoubledAt(d, 2);
    CleanPrefix(d, i);
  }

  /** What success of the chain means: the path exists and all its proper ancestors are directories. The
      path itself may be a file, since any existing entry counts. */
  lemma ChainSuccess(n: Nodes, refused: set<string>, d: string)
    requires WellFormed(n) && Clean(d) && Chain(n, refused, d).0
    ensures var m := Chain(n, refused, d).1;
            d in m && (forall q :: q in Ancestors(d) ==> q in m && m[q] == Dir)
  {
    LevelsKeepWellFormed(n, refused, d, 3);
    var m := Chain(n, refused, d).1;
    forall q | q in Ancestors(d) ensures q in m && m[q] == Dir {
      AncestorsAreDirs(m, d, q);
    }
  }

  /** The levels of `d` from `i` on. */
  function LevelSet(d: string, i: nat): set<string> {
    (set j | i <= j < |d| && d[j] == '\\' :: d[..j]) + {d}
  }

  /** `d` and everything above it is a directory or can become one, ... */
  ghost predicate ClearWay(n: Nodes, refused: set<string>, d: string) {
    PassableAt(n, refused, d) && DirsAbove(refused, n, d)
  }

  /** There is a directory, or one can be made. */
  predicate PassableAt(n: Nodes, refused: set<string>, q: string) {
    if q in n then n[q] == Dir else q !in refused
  }

  /** ... and what is above position `i` is there. */
  ghost predicate BuiltTo(n: Nodes, d: string, i: nat) {
    forall j :: 3 < j < i && j < |d| && d[j] == '\\' ==> d[..j] in n
  }

  lemma OneMoreLevel(n: Nodes, refused: set<string>, d: string, i: nat)
    requires Clean(d) && 3 <= i < |d| && d[i] == '\\' && ClearWay(n, refused, d) && BuiltTo(n, d, i)
    ensures Create(n, refused, d[..i]) == (true, Fill(n, {d[..i]}))
    ensures ClearWay(Fill(n, {d[..i]}), refused, d) && BuiltTo(Fill(n, {d[..i]}), d, i + 1)
  {
    assert !DoubledAt(d, 2);
    assert IsAncestor(d[..i], d);
    CreateFills(n, refused, d[..i], d, i);
  }

  lemma LastLevel(n: Nodes, refused: set<string>, d: string, i: nat)
    requires Clean(d) && i >= |d| && ClearWay(n, refused, d) && BuiltTo(n, d, i)
    ensures Levels(n, refused, d, i) == (true, Fill(n, LevelSet(d, i)))
  {
    assert LevelSet(d, i) == {d} && d[..|d|] == d;
    CreateFills(n, refused, d, d, |d|);
  }

  lemma LevelsStep(n: Nodes, refused: set<string>, d: string, i: nat, m: Nodes)
    requires i < |d| && if d[i] == '\\' then Create(n, refused, d[..i]) == (true, m) else m == n
    ensures Levels(n, refused, d, i) == Levels(m, refused, d, i + 1)
  {
  }

  lemma NoLevelHere(n: Nodes, d: string, i: nat)
    requires i < |d| && d[i] != '\\' && BuiltTo(n, d, i)
    ensures BuiltTo(n, d, i + 1) && LevelSet(d, i) == LevelSet(d, i + 1)
  {
  }

  lemma LevelHere(n: Nodes, d: string, i: nat)
    requires i < |d| && d[i] == '\\'
    ensures Fill(Fill(n, {d[..i]}), LevelSet(d, i + 1)) == Fill(n, LevelSet(d, i))
  {
    FillTwice(n, d[..i], LevelSet(d, i + 1));
    assert LevelSet(d, i) == {d[..i]} + LevelSet(d, i + 1);
  }

  /** With nothing in the way, the levels are exactly filled in. */
  lemma {:induction false} LevelsFill(n: Nodes, refused: set<string>, d: string, i: nat)
    requires Clean(d) && 3 <= i && ClearWay(n, refused, d) && BuiltTo(n, d, i)
    ensures Levels(n, refused, d, i) == (true, Fill(n, LevelSet(d, i)))
    decreases |d| - i
  {
    if i >= |d| {
      LastLevel(n, refused, d, i);
    } else if d[i] != '\\' {
      LevelsStep(n, refused, d, i, n);
      NoLevelHere(n, d, i);
      LevelsFill(n, refused, d, i + 1);
    } else {
      var m := Fill(n, {d[..i]});
      OneMoreLevel(n, refused, d, i);
      LevelsStep(n, refused, d, i, m);
      LevelsFill(m, refused, d, i + 1);
      LevelHere(n, d, i);
    }
  }

  lemma FillTwice(n: Nodes, p: string, s: set<string>)
    ensures Fill(Fill(n, {p}), s) == Fill(n, {p} + s)
  {
  }

  lemma CreateFills(n: Nodes, refused: set<string>, p: string, d: string, i: nat)
    requires Clean(d) && 3 < i <= |d| && p == d[..i] && (i < |d| ==> d[i] == '\\')
    requires p in n || p !in refused
    requires ClearWay(n, refused, d)
    requires forall j :: 3 < j < i && d[j] == '\\' ==> d[..j] in n
    ensures Create(n, refused, p) == (true, Fill(n, {p}))
  {
    var k := LastSlash(p);
    assert p[2] == '\\' && k >= 2;
    if k > 2 {
      assert !DoubledAt(d, 2);
      assert d[k] == '\\' && k != 3 && p[..k] == d[..k];
      assert IsAncestor(d[..k], d);
    }
    if p in n {
      assert p == d || IsAncestor(p, d);
      assert Fill(n, {p}) == n;
    } else {
      assert Fill(n, {p}) == n[p := Dir];
    }
  }

  /** What the chain works on: the directory without the backslashes at its end, but for a drive's. */
  lemma {:induction false} TrimsExactly(d: string)
    requires |d| >= 3
    ensures var r := TrimSlashes(d);
            && r <= d && (forall i :: |r| <= i < |d| ==> d[i] == '\\')
            && (|r| == 3 || r[|r| - 1] != '\\')
  {
    if |d| > 3 && d[|d| - 1] == '\\' {
      TrimsExactly(d[..|d| - 1]);
      assert forall i :: |TrimSlashes(d)| <= i < |d| - 1 ==> d[..|d| - 1][i] == d[i];
    }
  }

  /** A directory that is not on a drive, or does not fit the buffer, is not made, nor is anything above it. */
  lemma StrangeDirMakesNothing(n: Nodes, refused: set<string>, dir: string)
    requires |dir| < 3 || !DriveAbsolute(dir) || |dir| >= 1024
    ensures Chain(n, refused, dir) == (false, n)
  {
  }

  // ------------------------------------------------------------------ what a restore leaves alone

  /** No restore, successful or not, changes an entry that existed or a stored copy other than its own. */
  lemma RestoreClobbersNothing(allowed: bool, refused: set<string>, w: World, row: Row)
    ensures var (outcome, t) := RestoreOne(allowed, refused, w, row);
            && (forall p :: p in w.nodes ==> p in t.nodes && t.nodes[p] == w.nodes[p])
            && (outcome == Restored ==> row.id in w.store && row.dst.Some? && Fold(row.dst.value) in t.nodes &&
                                        t.nodes[Fold(row.dst.value)] == w.store[row.id])
            && (if outcome == Restored then t.store == w.store - {row.id} && t.live == w.live - {row.id}
                else t.store == w.store && t.live == w.live)
  {
    if row.dst.Some? {
      ChainGrows(w.nodes, refused, Parent(Fold(row.dst.value)));
    }
  }

  ghost predicate Grows(n: Nodes, m: Nodes) {
    forall p :: p in n ==> p in m && m[p] == n[p]
  }

  lemma {:induction false} LevelsGrow(n: Nodes, refused: set<string>, d: string, i: nat)
    ensures Grows(n, Levels(n, refused, d, i).1)
    decreases |d| - i
  {
    if i < |d| {
      LevelsGrow(if d[i] == '\\' then Create(n, refused, d[..i]).1 else n, refused, d, i + 1);
    }
  }

  lemma ChainGrows(n: Nodes, refused: set<string>, d: string)
    ensures Grows(n, Chain(n, refused, d).1)
  {
    if |d| > 3 {
      LevelsGrow(n, refused, TrimSlashes(d), 3);
    }
  }

  // ------------------------------------------------------------------ when a chain succeeds

  lemma {:induction false} LevelsThere(n: Nodes, refused: set<string>, d: string, i: nat)
    requires WellFormed(n) && Clean(d) && d in n && 3 <= i
    ensures Levels(n, refused, d, i) == (true, n)
    decreases |d| - i
  {
    if i < |d| {
      if d[i] == '\\' {
        LevelIsClean(d, i);
        AncestorsAreDirs(n, d, d[..i]);
      }
      LevelsStep(n, refused, d, i, n);
      LevelsThere(n, refused, d, i + 1);
    }
  }

  /** The chain succeeds exactly when the path is there, as a directory or a file, or can be made: with nothing but
      directories above it, and neither it nor a missing one refused. */
  lemma ChainSucceedsIff(n: Nodes, refused: set<string>, d: string)
    requires WellFormed(n) && Clean(d) && |d| < MAX_RECON_PATH
    ensures Chain(n, refused, d).0 <==> d in n || Unobstructed(refused, n, d)
  {
    var m := Chain(n, refused, d).1;
    if d in n {
      LevelsThere(n, refused, d, 3);
    } else if Unobstructed(refused, n, d) {
      LevelsFill(n, refused, d, 3);
    } else if Chain(n, refused, d).0 {
      ChainSuccess(n, refused, d);
      ChainGrows(n, refused, d);
      LevelsMakeOnly(n, refused, d, 3, d);
      forall q | IsAncestor(q, d) ensures PassableAt(n, refused, q) {
        InAncestors(q, d);
        if q !in n {
          LevelsMakeOnly(n, refused, d, 3, q);
        }
      }
    }
  }

  // ------------------------------------------------------------------ when a restore succeeds

  /** A restore succeeds exactly when the row is live and its copy stored, its destination is known and
      allowed, nothing is there yet, and the parent and the target can be made. */
  lemma RestoredIff(shares: seq<string>, refused: set<string>, w: World, row: Row)
    ensures RestoreOne(Permitted(shares, row), refused, w, row).0 == Restored <==>
            && row.id in w.live && row.id in w.store && row.dst.Some? && Allowed(shares, row.dst.value)
            && |row.dst.value| > 3 && Fold(row.dst.value) !in w.nodes && Fold(row.dst.value) !in refused
            && var parent := Parent(Fold(row.dst.value)); IsDir(Chain(w.nodes, refused, parent).1, parent)
  {
  }

  /** Each answer has one cause, and the first cause in this order decides. */
  lemma RefusedBecause(shares: seq<string>, refused: set<string>, w: World, row: Row)
    ensures var outcome := RestoreOne(Permitted(shares, row), refused, w, row).0;
            var there := row.dst.Some? && (|row.dst.value| <= 3 || Fold(row.dst.value) in w.nodes);
            && (outcome == NotLive <==> row.id !in w.live)
            && (outcome == SourceMissing <==> row.id in w.live && row.id !in w.store)
            && (outcome == NoDestination <==> row.id in w.live && row.id in w.store && row.dst.None?)
            && (outcome == NotAllowed <==>
                  row.id in w.live && row.id in w.store && row.dst.Some? && !Allowed(shares, row.dst.value))
            && (outcome == TargetExists <==>
                  row.id in w.live && row.id in w.store && row.dst.Some? && Allowed(shares, row.dst.value) && there)
  {
  }

  /** Whatever is refused before the move changes nothing at all. */
  lemma RefusalsTouchNothing(shares: seq<string>, refused: set<string>, w: World, row: Row)
    ensures var (outcome, t) := RestoreOne(Permitted(shares, row), refused, w, row);
            && (outcome != Restored && outcome != MoveFailed ==> t == w)
            && (!Permitted(shares, row) ==> outcome != Restored && t == w)
  {
  }

  /** The parent of a clean path can be made exactly when only directories stand above it and no missing one
      is refused; one too long for the buffer must be there already. */
  lemma ParentMadeIff(n: Nodes, refused: set<string>, p: string)
    requires WellFormed(n) && Clean(p)
    ensures IsDir(Chain(n, refused, Parent(p)).1, Parent(p)) <==>
            DirsAbove(refused, n, p) && (|Parent(p)| >= MAX_RECON_PATH ==> IsDir(n, Parent(p)))
  {
    var parent := Parent(p);
    var m := Chain(n, refused, parent).1;
    assert p[2] == '\\';
    if |parent| <= 3 {
      assert forall q :: !IsAncestor(q, p);
    } else if IsDir(m, parent) {
      ChainGrows(n, refused, parent);
      ChainKeepsWellFormed(n, refused, p);
      ChainMakesOnly(n, refused, p);
      forall q | IsAncestor(q, p) ensures PassableAt(n, refused, q) {
        if q != parent {
          AboveParent(p, q);
          InAncestors(q, parent);
          AncestorsAreDirs(m, parent, q);
        }
      }
    } else if DirsAbove(refused, n, p) && |parent| < MAX_RECON_PATH {
      ChainFills(n, refused, p);
    }
  }

  /** So in a well-formed file system the outcome follows from the row, the shares and what stands above the
      target. */
  lemma RestoredExactly(shares: seq<string>, refused: set<string>, w: World, row: Row)
    requires WellFormed(w.nodes) && row.dst.Some? && Clean(Fold(row.dst.value))
    ensures var key := Fold(row.dst.value);
            RestoreOne(Permitted(shares, row), refused, w, row).0 == Restored <==>
            && row.id in w.live && row.id in w.store && Allowed(shares, row.dst.value)
            && key !in w.nodes && Unobstructed(refused, w.nodes, key)
            && (|Parent(key)| >= MAX_RECON_PATH ==> IsDir(w.nodes, Parent(key)))
  {
    RestoredIff(shares, refused, w, row);
    ParentMadeIff(w.nodes, refused, Fold(row.dst.value));
  }

  lemma AboveParent(p: string, q: string)
    requires Clean(p) && IsAncestor(q, p) && q != Parent(p)
    ensures IsAncestor(q, Parent(p))
  {
    assert p[|q|] == '\\' && LastSlash(p) >= |q|;
    assert q == Parent(p)[..|q|];
  }

  /** The levels make only what is not refused. */
  lemma {:induction false} LevelsMakeOnly(n: Nodes, refused: set<string>, d: string, i: nat, q: string)
    requires q in Levels(n, refused, d, i).1 && q !in n
    ensures q !in refused && Levels(n, refused, d, i).1[q] == Dir
    ensures q == d || (i <= |q| < |d| && q == d[..|q|] && d[|q|] == '\\')
    decreases |d| - i
  {
    if i < |d| {
      var m := if d[i] == '\\' then Create(n, refused, d[..i]).1 else n;
      if q !in m {
        LevelsMakeOnly(m, refused, d, i + 1, q);
      } else {
        LevelsGrow(m, refused, d, i + 1);
      }
    }
  }

  lemma ChainMakesOnly(n: Nodes, refused: set<string>, p: string)
    ensures forall q :: q in Chain(n, refused, Parent(p)).1 && q !in n ==> q !in refused
  {
    var dir := Parent(p);
    forall q | q in Chain(n, refused, dir).1 && q !in n ensures q !in refused {
      LevelsMakeOnly(n, refused, TrimSlashes(dir), 3, q);
    }
  }

  /** `q` ends at a backslash of `p`, at the drive root or below. */
  predicate Above(q: string, p: string) {
    3 <= |q| < |p| && q == p[..|q|] && p[|q|] == '\\'
  }

  lemma {:induction false} TrimmedAt(d: string)
    requires |d| >= 3
    ensures var r := TrimSlashes(d); r == d || (|r| < |d| && d[|r|] == '\\')
  {
    if |d| > 3 && d[|d| - 1] == '\\' {
      TrimmedAt(d[..|d| - 1]);
    }
  }

  /** A chain makes nothing but directories above the path it is for. */
  lemma ChainMakesAbove(n: Nodes, refused: set<string>, p: string, q: string)
    requires q in Chain(n, refused, Parent(p)).1 && q !in n
    ensures Above(q, p) && Chain(n, refused, Parent(p)).1[q] == Dir
  {
    var dir := Parent(p);
    var d := TrimSlashes(dir);
    TrimmedAt(dir);
    LevelsMakeOnly(n, refused, d, 3, q);
    assert p[|dir|] == '\\' && dir == p[..|dir|];
    assert q == p[..|q|];
  }

  /** Whatever one restore adds is its row's target or a directory above it, and the target is allowed. */
  lemma RestoreAddsOnly(shares: seq<string>, refused: set<string>, w: World, row: Row, q: string)
    ensures var (outcome, t) := RestoreOne(Permitted(shares, row), refused, w, row);
            q in t.nodes && q !in w.nodes ==>
              && Permitted(shares, row) && row.id in w.store
              && ((q == Fold(row.dst.value) && outcome == Restored && t.nodes[q] == w.store[row.id]) ||
                  (Above(q, Fold(row.dst.value)) && t.nodes[q] == Dir))
  {
    var (outcome, t) := RestoreOne(Permitted(shares, row), refused, w, row);
    if q in t.nodes && q !in w.nodes {
      var key := Fold(row.dst.value);
      if q != key || outcome != Restored {
        ChainMakesAbove(w.nodes, refused, key, q);
      }
    }
  }

  /** And so for any number of restores, whatever their rows say: nothing appears outside the shares but
      directories above an allowed target. */
  lemma {:induction false} RestoresAddOnly(shares: seq<string>, refused: set<string>, w: World, rows: seq<Row>, q: string)
    requires q in RestoreAll(shares, refused, w, rows).1.nodes && q !in w.nodes
    ensures exists i :: 0 <= i < |rows| && Permitted(shares, rows[i]) &&
              ((q == Fold(rows[i].dst.value) && RestoreAll(shares, refused, w, rows).0[i] == Restored) ||
               Above(q, Fold(rows[i].dst.value)))
  {
    if rows != [] {
      var k := |rows| - 1;
      var (outcomes, m) := RestoreAll(shares, refused, w, rows[..k]);
      if q in m.nodes {
        RestoresAddOnly(shares, refused, w, rows[..k], q);
        var i :| 0 <= i < k && Permitted(shares, rows[..k][i]) &&
                 ((q == Fold(rows[..k][i].dst.value) && outcomes[i] == Restored) ||
                  Above(q, Fold(rows[..k][i].dst.value)));
        assert rows[..k][i] == rows[i];
      } else {
        RestoreAddsOnly(shares, refused, m, rows[k], q);
      }
    }
  }

  // ------------------------------------------------------------------ order

  /** Binary collation: `a` sorts strictly before `b`. */
  ghost predicate Before(a: string, b: string) {
    exists i :: BeforeAt(a, b, i)
  }

  predicate BeforeAt(a: string, b: string, i: int) {
    0 <= i <= |a| && i < |b| && a[..i] == b[..i] && (i == |a| || a[i] < b[i])
  }

  /** A string sorts after everything it extends. */
  lemma PrefixSortsFirst(p: string, s: string)
    requires p <= s
    ensures !Before(s, p)
  {
    forall i ensures !BeforeAt(s, p, i) {
      if 0 <= i < |p| {
        assert s[i] == p[i];
      }
    }
  }

  /** Rows sorted by NT path are sorted by DOS path, once the device is replaced by the drive. */
  lemma OrderSurvivesMapping(device: string, drive: string, a: string, b: string)
    requires Before(device + a, device + b)
    ensures Before(drive + a, drive + b)
  {
    var i :| BeforeAt(device + a, device + b, i);
    assert i >= |device|;
    var k := i - |device|;
    assert (device + a)[..i] == device + a[..k] && (device + b)[..i] == device + b[..k];
    assert a[..k] == (device + a[..k])[|device|..];
    assert b[..k] == (device + b[..k])[|device|..];
    assert (drive + a)[..|drive| + k] == drive + a[..k];
    assert (drive + b)[..|drive| + k] == drive + b[..k];
    assert BeforeAt(drive + a, drive + b, |drive| + k);
  }

  // ------------------------------------------------------------------ growing the file system

  /** An entry to put back. */
  datatype Entry = Entry(path: string, kind: Kind)

  /** One entry after another, each below the directories it needs. */
  function Grown(n: Nodes, es: seq<Entry>): Nodes {
    if es == [] then n
    else
      var e := es[|es| - 1];
      Fill(Grown(n, es[..|es| - 1]), Ancestors(e.path))[e.path := e.kind]
  }

  ghost predicate IsTarget(es: seq<Entry>, p: string) {
    exists i :: 0 <= i < |es| && es[i].path == p
  }

  ghost predicate IsAbove(es: seq<Entry>, p: string) {
    exists i :: 0 <= i < |es| && IsAncestor(p, es[i].path)
  }

  lemma LastOrEarlier(es: seq<Entry>, p: string)
    requires es != []
    ensures IsTarget(es, p) <==> es[|es| - 1].path == p || IsTarget(es[..|es| - 1], p)
    ensures IsAbove(es, p) <==> IsAncestor(p, es[|es| - 1].path) || IsAbove(es[..|es| - 1], p)
  {
    var k := |es| - 1;
    assert forall i :: 0 <= i < k ==> es[..k][i] == es[i];
  }

  /** The outcome in one line: what was there, the entries with their kinds, and directories above them. */
  lemma {:induction false} GrownIs(n: Nodes, es: seq<Entry>, p: string)
    ensures p in Grown(n, es) <==> p in n || IsTarget(es, p) || IsAbove(es, p)
    ensures p in Grown(n, es) && !IsTarget(es, p) ==> Grown(n, es)[p] == if p in n then n[p] else Dir
  {
    if es != [] {
      GrownIs(n, es[..|es| - 1], p);
      LastOrEarlier(es, p);
      InAncestors(p, es[|es| - 1].path);
    }
  }

  lemma {:induction false} GrownKinds(n: Nodes, es: seq<Entry>, i: nat)
    requires i < |es| && forall j :: i < j < |es| ==> es[j].path != es[i].path
    ensures es[i].path in Grown(n, es) && Grown(n, es)[es[i].path] == es[i].kind
  {
    if i < |es| - 1 {
      GrownKinds(n, es[..|es| - 1], i);
    }
  }

  // ------------------------------------------------------------------ a whole tree comes back

  /** Nothing but directories stands above `p`, the missing ones can be made, and so can `p`. */
  ghost predicate Unobstructed(refused: set<string>, n: Nodes, p: string) {
    p !in refused && DirsAbove(refused, n, p)
  }

  ghost predicate DirsAbove(refused: set<string>, n: Nodes, p: string) {
    forall q {:trigger IsAncestor(q, p)} :: IsAncestor(q, p) ==> PassableAt(n, refused, q)
  }

  /** No entry comes twice, or after one that lies below it. */
  ghost predicate TopDown(es: seq<Entry>) {
    forall i, j :: 0 <= i < j < |es| ==> es[i].path != es[j].path && !IsAncestor(es[j].path, es[i].path)
  }

  /** Clean entries, absent so far, with nothing but directories above them. */
  ghost predicate Placed(refused: set<string>, n: Nodes, es: seq<Entry>) {
    && (forall i :: 0 <= i < |es| ==>
          Clean(es[i].path) && |es[i].path| < MAX_RECON_PATH && es[i].path !in n && Unobstructed(refused, n, es[i].path))
    && (forall i, j :: 0 <= i < |es| && 0 <= j < |es| && IsAncestor(es[i].path, es[j].path) ==> es[i].kind == Dir)
  }

  ghost predicate Plantable(refused: set<string>, n: Nodes, es: seq<Entry>) {
    Placed(refused, n, es) && TopDown(es)
  }

  /** When an entry's turn comes its target is still absent. */
  lemma NextIsAbsent(refused: set<string>, n: Nodes, es: seq<Entry>)
    requires es != [] && Plantable(refused, n, es)
    ensures es[|es| - 1].path !in Grown(n, es[..|es| - 1])
  {
    var k := |es| - 1;
    var earlier, p := es[..k], es[k].path;
    GrownIs(n, earlier, p);
    forall i | 0 <= i < k ensures earlier[i].path != p && !IsAncestor(p, earlier[i].path) {
      assert earlier[i] == es[i];
    }
  }

  lemma KindOf(refused: set<string>, n: Nodes, es: seq<Entry>, i: nat)
    requires Plantable(refused, n, es) && i < |es| - 1
    ensures var m := Grown(n, es[..|es| - 1]);
            es[i].path in m && m[es[i].path] == es[i].kind
  {
    var earlier := es[..|es| - 1];
    assert forall j :: i < j < |earlier| ==> earlier[j].path != earlier[i].path;
    GrownKinds(n, earlier, i);
  }

  /** ... and only directories stand above it. */
  lemma NextIsUnobstructed(refused: set<string>, n: Nodes, es: seq<Entry>)
    requires es != [] && Plantable(refused, n, es)
    ensures Unobstructed(refused, Grown(n, es[..|es| - 1]), es[|es| - 1].path)
  {
    var k := |es| - 1;
    var earlier, p := es[..k], es[k].path;
    var m := Grown(n, earlier);
    assert Unobstructed(refused, n, p);
    forall q | IsAncestor(q, p) ensures PassableAt(m, refused, q) {
      GrownIs(n, earlier, q);
      if IsTarget(earlier, q) {
        var i :| 0 <= i < k && earlier[i].path == q;
        assert es[i].path == q && IsAncestor(es[i].path, es[k].path);
        KindOf(refused, n, es, i);
      }
    }
  }

  lemma RestoreSucceeds(refused: set<string>, m: World, row: Row)
    requires row.id in m.live && row.id in m.store && row.dst.Some? && Clean(Fold(row.dst.value))
    requires |row.dst.value| < MAX_RECON_PATH && Fold(row.dst.value) !in m.nodes
    requires Unobstructed(refused, m.nodes, Fold(row.dst.value))
    ensures var key := Fold(row.dst.value);
            RestoreOne(true, refused, m, row) ==
            (Restored, World(Fill(m.nodes, Ancestors(key))[key := m.store[row.id]],
                             m.store - {row.id}, m.live - {row.id}))
  {
    ChainFills(m.nodes, refused, Fold(row.dst.value));
  }

  /** The chain for a target's parent fills in exactly the target's ancestors, and the parent is then a
      directory. */
  lemma ChainFills(n: Nodes, refused: set<string>, p: string)
    requires Clean(p) && |Parent(p)| < MAX_RECON_PATH && DirsAbove(refused, n, p)
    ensures Chain(n, refused, Parent(p)).1 == Fill(n, Ancestors(p))
    ensures IsDir(Fill(n, Ancestors(p)), Parent(p))
  {
    var k := LastSlash(p);
    assert p[2] == '\\' && k >= 2;
    var parent := Parent(p);
    if k == 2 {
      assert Ancestors(p) == {};
      assert Fill(n, {}) == n;
    } else {
      assert !DoubledAt(p, 2);
      assert k > 3 && parent == p[..k];
      assert IsAncestor(parent, p);
      InAncestors(parent, p);
      CleanPrefix(p, k);
      forall q | IsAncestor(q, parent) ensures IsAncestor(q, p) {
        assert q == p[..|q|];
      }
      LevelsFill(n, refused, parent, 3);
      LevelsOfParent(p);
    }
  }

  lemma LevelsOfParent(p: string)
    requires Clean(p) && LastSlash(p) > 3
    ensures LevelSet(Parent(p), 3) == Ancestors(p)
  {
    var k := LastSlash(p);
    var parent := p[..k];
    assert forall j :: 3 <= j < k ==> parent[..j] == p[..j] && parent[j] == p[j];
    assert !DoubledAt(p, 2);
    forall q ensures q in LevelSet(parent, 3) <==> q in Ancestors(p) {
      InAncestors(q, p);
      if q in Ancestors(p) && |q| < k {
        assert q == parent[..|q|];
      }
    }
  }

  ghost function EntryOf(w: World, row: Row): Entry
    requires row.dst.Some? && row.id in w.store
  {
    Entry(Fold(row.dst.value), w.store[row.id])
  }

  ghost predicate Present(shares: seq<string>, w: World, rows: seq<Row>) {
    && (forall i :: 0 <= i < |rows| ==> rows[i].id in w.live && rows[i].id in w.store && Permitted(shares, rows[i]))
    && (forall i, j :: 0 <= i < j < |rows| ==> rows[i].id != rows[j].id)
  }

  ghost function EntriesOf(w: World, rows: seq<Row>): (es: seq<Entry>)
    requires forall i :: 0 <= i < |rows| ==> rows[i].dst.Some? && rows[i].id in w.store
    ensures |es| == |rows|
  {
    seq(|rows|, i requires 0 <= i < |rows| => EntryOf(w, rows[i]))
  }

  ghost function Ids(rows: seq<Row>): set<ItemId> {
    set row | row in rows :: row.id
  }

  /** What the query's order gives. Entries whose real paths are sorted, drive by drive, and that spell the
      directories above them alike, come top down exactly when no two are the same but for case. */
  lemma SortedIsTopDown(paths: seq<string>, es: seq<Entry>)
    requires |es| == |paths| && forall i :: 0 <= i < |es| ==> paths[i] != "" && es[i].path == Fold(paths[i])
    requires forall i, j :: 0 <= i < j < |paths| ==> Sorted(paths[i], paths[j])
    requires forall i, j :: 0 <= i < |paths| && 0 <= j < |paths| && IsAncestor(Fold(paths[i]), Fold(paths[j])) ==>
               IsAncestor(paths[i], paths[j])
    ensures TopDown(es) <==> forall i, j :: 0 <= i < j < |es| ==> es[i].path != es[j].path
  {
    forall i, j | 0 <= i < j < |es| ensures !IsAncestor(es[j].path, es[i].path) {
      assert Sorted(paths[i], paths[j]);
      if IsAncestor(paths[j], paths[i]) {
        PrefixSortsFirst(paths[j], paths[i]);
      }
    }
  }

  /** `a` may come before `b` in a listing that is sorted drive by drive. */
  ghost predicate Sorted(a: string, b: string)
    requires a != "" && b != ""
  {
    a == b || a[0] != b[0] || Before(a, b)
  }

  /** With rows top down, distinct absent targets, present sources, nothing but
      directories above them and no refusals, every restore succeeds; the file system grows by exactly the
      entries and the directories missing above them (GrownIs), and the rows leave the store. */
  lemma {:induction false} TreeComesBack(shares: seq<string>, refused: set<string>, w: World, rows: seq<Row>)
    requires Present(shares, w, rows) && Plantable(refused, w.nodes, EntriesOf(w, rows))
    ensures var (outcomes, t) := RestoreAll(shares, refused, w, rows);
            && |outcomes| == |rows| && AllRestored(outcomes)
            && t == World(Grown(w.nodes, EntriesOf(w, rows)), w.store - Ids(rows), w.live - Ids(rows))
  {
    if rows == [] {
      assert w.store - Ids(rows) == w.store;
    } else {
      var k := |rows| - 1;
      ShorterTree(shares, refused, w, rows);
      TreeComesBack(shares, refused, w, rows[..k]);
      TreeStep(shares, refused, w, rows);
      var (outcomes, m) := RestoreAll(shares, refused, w, rows[..k]);
      RestoreAllSnoc(shares, refused, w, rows, k);
      assert rows[..k + 1] == rows;
      AllRestoredSnoc(outcomes, Restored);
    }
  }

  lemma ShorterTree(shares: seq<string>, refused: set<string>, w: World, rows: seq<Row>)
    requires rows != [] && Present(shares, w, rows) && Plantable(refused, w.nodes, EntriesOf(w, rows))
    ensures Present(shares, w, rows[..|rows| - 1])
    ensures EntriesOf(w, rows[..|rows| - 1]) == EntriesOf(w, rows)[..|rows| - 1]
    ensures Plantable(refused, w.nodes, EntriesOf(w, rows)[..|rows| - 1])
  {
    var es := EntriesOf(w, rows);
    assert forall i :: 0 <= i < |rows| - 1 ==> es[..|rows| - 1][i] == es[i];
  }

  lemma TreeStep(shares: seq<string>, refused: set<string>, w: World, rows: seq<Row>)
    requires rows != [] && Present(shares, w, rows) && Plantable(refused, w.nodes, EntriesOf(w, rows))
    ensures var k, es := |rows| - 1, EntriesOf(w, rows);
            var earlier := Ids(rows[..k]);
            RestoreOne(Permitted(shares, rows[k]), refused,
                       World(Grown(w.nodes, es[..k]), w.store - earlier, w.live - earlier), rows[k]) ==
            (Restored, World(Grown(w.nodes, es), w.store - Ids(rows), w.live - Ids(rows)))
  {
    var k, es := |rows| - 1, EntriesOf(w, rows);
    NextIsAbsent(refused, w.nodes, es);
    NextIsUnobstructed(refused, w.nodes, es);
    IdsSnoc(rows);
    assert rows[k].id !in Ids(rows[..k]);
    var m := World(Grown(w.nodes, es[..k]), w.store - Ids(rows[..k]), w.live - Ids(rows[..k]));
    assert es[k] == EntryOf(w, rows[k]);
    RestoreSucceeds(refused, m, rows[k]);
    assert m.store - {rows[k].id} == w.store - Ids(rows);
    assert m.live - {rows[k].id} == w.live - Ids(rows);
  }

  lemma MoveKeepsWellFormed(n: Nodes, refused: set<string>, kind: Kind, p: string)
    requires WellFormed(n) && Clean(p) && p !in n
    ensures WellFormed(MoveTo(n, refused, kind, p).1)
  {
    if IsDir(n, Parent(p)) {
      AddKeepsWellFormed(n, p, kind);
    }
  }

  lemma RestoreKeepsWellFormed(allowed: bool, refused: set<string>, w: World, row: Row)
    requires WellFormed(w.nodes) && row.dst.Some? && Clean(Fold(row.dst.value))
    ensures WellFormed(RestoreOne(allowed, refused, w, row).1.nodes)
  {
    var key := Fold(row.dst.value);
    if row.id in w.store && key !in w.nodes {
      ChainKeepsWellFormed(w.nodes, refused, key);
      ChainSparesTarget(w.nodes, refused, key);
      MoveKeepsWellFormed(Chain(w.nodes, refused, Parent(key)).1, refused, w.store[row.id], key);
    }
  }

  lemma ChainKeepsWellFormed(n: Nodes, refused: set<string>, p: string)
    requires WellFormed(n) && Clean(p)
    ensures WellFormed(Chain(n, refused, Parent(p)).1)
    ensures Chain(n, refused, Parent(p)).1.Keys <= n.Keys + Ancestors(p)
  {
    var parent := Parent(p);
    if |parent| > 3 && |parent| < MAX_RECON_PATH {
      CleanPrefix(p, LastSlash(p));
      LevelsKeepWellFormed(n, refused, parent, 3);
      LevelsOfParent(p);
      AncestorsOfParent(p);
    }
  }

  lemma AncestorsOfParent(p: string)
    requires Clean(p) && LastSlash(p) > 3
    ensures Ancestors(Parent(p)) + {Parent(p)} <= Ancestors(p)
  {
    var parent := Parent(p);
    assert IsAncestor(parent, p);
    InAncestors(parent, p);
    forall q | q in Ancestors(parent) ensures q in Ancestors(p) {
      InAncestors(q, parent);
      assert q == p[..|q|];
      InAncestors(q, p);
    }
  }

  lemma ChainSparesTarget(n: Nodes, refused: set<string>, p: string)
    requires WellFormed(n) && Clean(p) && p !in n
    ensures p !in Chain(n, refused, Parent(p)).1
  {
    ChainKeepsWellFormed(n, refused, p);
    InAncestors(p, p);
  }

  ghost predicate AllAt(n: Nodes, rows: seq<Row>) {
    forall i :: 0 <= i < |rows| ==> rows[i].dst.Some? && Fold(rows[i].dst.value) in n
  }

  ghost predicate AllClean(rows: seq<Row>) {
    forall i :: 0 <= i < |rows| ==> rows[i].dst.Some? && Clean(Fold(rows[i].dst.value))
  }

  lemma AllRestoredSplits(shares: seq<string>, refused: set<string>, w: World, rows: seq<Row>)
    requires rows != [] && AllRestored(RestoreAll(shares, refused, w, rows).0)
    ensures var k := |rows| - 1;
            var (outcomes, m) := RestoreAll(shares, refused, w, rows[..k]);
            && AllRestored(outcomes)
            && RestoreOne(Permitted(shares, rows[k]), refused, m, rows[k]) ==
               (Restored, RestoreAll(shares, refused, w, rows).1)
  {
    var k := |rows| - 1;
    var (outcomes, m) := RestoreAll(shares, refused, w, rows[..k]);
    AllRestoredSnoc(outcomes, RestoreOne(Permitted(shares, rows[k]), refused, m, rows[k]).0);
  }

  lemma FewerPresent(shares: seq<string>, w: World, rows: seq<Row>, k: nat)
    requires k <= |rows| && Present(shares, w, rows) && AllClean(rows)
    ensures Present(shares, w, rows[..k]) && AllClean(rows[..k])
  {
  }

  /** When every restore succeeds, every target is there afterwards, below directories, and the next one
      was not. */
  lemma {:induction false} AllRestoredIsTopDown(shares: seq<string>, refused: set<string>, w: World, rows: seq<Row>)
    requires WellFormed(w.nodes) && Present(shares, w, rows) && AllClean(rows)
    requires AllRestored(RestoreAll(shares, refused, w, rows).0)
    ensures TopDown(EntriesOf(w, rows)) && WellFormed(RestoreAll(shares, refused, w, rows).1.nodes)
    ensures AllAt(RestoreAll(shares, refused, w, rows).1.nodes, rows)
  {
    if rows != [] {
      var k := |rows| - 1;
      AllRestoredSplits(shares, refused, w, rows);
      FewerPresent(shares, w, rows, k);
      AllRestoredIsTopDown(shares, refused, w, rows[..k]);
      var m, t := RestoreAll(shares, refused, w, rows[..k]).1, RestoreAll(shares, refused, w, rows).1;
      LastIsRestored(shares, refused, m, rows[..k], rows[k], t);
      AllAtSnoc(t.nodes, rows);
      TopDownRows(w, rows);
    }
  }

  lemma AllAtSnoc(n: Nodes, rows: seq<Row>)
    requires rows != [] && AllAt(n, rows[..|rows| - 1])
    requires rows[|rows| - 1].dst.Some? && Fold(rows[|rows| - 1].dst.value) in n
    ensures AllAt(n, rows)
  {
    assert forall i :: 0 <= i < |rows| - 1 ==> rows[..|rows| - 1][i] == rows[i];
  }

  lemma TopDownRows(w: World, rows: seq<Row>)
    requires rows != [] && forall i :: 0 <= i < |rows| ==> rows[i].dst.Some? && rows[i].id in w.store
    requires TopDown(EntriesOf(w, rows[..|rows| - 1]))
    requires var key, earlier := Fold(rows[|rows| - 1].dst.value), rows[..|rows| - 1];
             forall i :: 0 <= i < |earlier| ==>
               Fold(earlier[i].dst.value) != key && !IsAncestor(key, Fold(earlier[i].dst.value))
    ensures TopDown(EntriesOf(w, rows))
  {
    var earlier := rows[..|rows| - 1];
    assert forall i :: 0 <= i < |earlier| ==> earlier[i] == rows[i];
    TopDownSnoc(EntriesOf(w, rows), EntriesOf(w, earlier));
  }

  lemma LastIsRestored(shares: seq<string>, refused: set<string>, m: World, earlier: seq<Row>, row: Row, t: World)
    requires WellFormed(m.nodes) && AllAt(m.nodes, earlier) && row.dst.Some? && Clean(Fold(row.dst.value))
    requires RestoreOne(Permitted(shares, row), refused, m, row) == (Restored, t)
    ensures WellFormed(t.nodes) && AllAt(t.nodes, earlier) && Fold(row.dst.value) in t.nodes
    ensures var key := Fold(row.dst.value);
            forall i :: 0 <= i < |earlier| ==>
              Fold(earlier[i].dst.value) != key && !IsAncestor(key, Fold(earlier[i].dst.value))
  {
    var key := Fold(row.dst.value);
    RestoreClobbersNothing(Permitted(shares, row), refused, m, row);
    RestoreKeepsWellFormed(Permitted(shares, row), refused, m, row);
    forall i | 0 <= i < |earlier|
      ensures Fold(earlier[i].dst.value) != key && !IsAncestor(key, Fold(earlier[i].dst.value))
    {
      NothingAboveIsAbsent(m.nodes, Fold(earlier[i].dst.value), key);
    }
  }

  lemma NothingAboveIsAbsent(n: Nodes, p: string, q: string)
    requires WellFormed(n) && p in n && q !in n
    ensures p != q && !IsAncestor(q, p)
  {
    InAncestors(q, p);
    if IsAncestor(q, p) {
      AncestorsAreDirs(n, p, q);
    }
  }

  lemma TopDownSnoc(es: seq<Entry>, earlier: seq<Entry>)
    requires es != [] && |earlier| == |es| - 1 && TopDown(earlier)
    requires forall i :: 0 <= i < |earlier| ==> earlier[i].path == es[i].path
    requires forall i :: 0 <= i < |earlier| ==>
               es[i].path != es[|es| - 1].path && !IsAncestor(es[|es| - 1].path, es[i].path)
    ensures TopDown(es)
  {
  }

  /** Exactly when a tree whose entries are otherwise placed as they should be comes back whole: when no
      entry comes twice or after one below it, in whatever case they are spelled. */
  lemma TreeComesBackIff(shares: seq<string>, refused: set<string>, w: World, rows: seq<Row>)
    requires WellFormed(w.nodes) && Present(shares, w, rows) && Placed(refused, w.nodes, EntriesOf(w, rows))
    ensures AllRestored(RestoreAll(shares, refused, w, rows).0) <==> TopDown(EntriesOf(w, rows))
  {
    var es := EntriesOf(w, rows);
    if TopDown(es) {
      TreeComesBack(shares, refused, w, rows);
    }
    if AllRestored(RestoreAll(shares, refused, w, rows).0) {
      assert forall i :: 0 <= i < |rows| ==> es[i] == EntryOf(w, rows[i]);
      AllRestoredIsTopDown(shares, refused, w, rows);
    }
  }

  /** The final file system, path by path. */
  lemma TreeExactly(shares: seq<string>, refused: set<string>, w: World, rows: seq<Row>, p: string)
    requires Present(shares, w, rows) && Plantable(refused, w.nodes, EntriesOf(w, rows))
    ensures var es, t := EntriesOf(w, rows), RestoreAll(shares, refused, w, rows).1;
            && (p in t.nodes <==> p in w.nodes || IsTarget(es, p) || IsAbove(es, p))
            && (p in w.nodes ==> t.nodes[p] == w.nodes[p])
            && (forall i :: 0 <= i < |rows| && Fold(rows[i].dst.value) == p ==>
                  p in t.nodes && t.nodes[p] == w.store[rows[i].id])
            && (p in t.nodes && p !in w.nodes && !IsTarget(es, p) ==> t.nodes[p] == Dir)
  {
    var es := EntriesOf(w, rows);
    TreeComesBack(shares, refused, w, rows);
    GrownIs(w.nodes, es, p);
    assert forall i :: 0 <= i < |rows| ==> es[i] == EntryOf(w, rows[i]);
    forall i | 0 <= i < |rows| && Fold(rows[i].dst.value) == p
      ensures p in Grown(w.nodes, es) && Grown(w.nodes, es)[p] == w.store[rows[i].id]
    {
      assert forall j :: i < j < |es| ==> es[j].path != es[i].path;
      GrownKinds(w.nodes, es, i);
    }
  }

  lemma IdsSnoc(rows: seq<Row>)
    requires rows != []
    ensures Ids(rows) == Ids(rows[..|rows| - 1]) + {rows[|rows| - 1].id}
  {
    var k := |rows| - 1;
    assert rows == rows[..k] + [rows[k]];
  }
}
