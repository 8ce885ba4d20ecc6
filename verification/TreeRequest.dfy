/**
 A tree restore from its request to the file system it leaves: the prefix is checked and mapped, the query
 selects rows of the table in its order, each row's path is mapped back to a drive, and the rows are restored
 one after another.
 */
module TreeRequest {
  import opened Common
  import opened Paths
  import opened LikePatterns
  import opened TreeRestore
  import Rows

  const MAX_TREE_RESTORE: nat := 5000
  const MAX_TREE_PREFIX: nat := 512

  /** A row of the table as the query sees it: its original path in NT form, and whether its status is
      landed or staged. */
  datatype Record = Record(id: ItemId, orig: string, live: bool)

  /** The query's condition, for a prefix in NT form. */
  predicate Picks(p: string, r: Record) {
    r.live && Like(Escaped(p) + "%", r.orig)
  }

  function Picker(p: string): Record -> bool {
    (r: Record) => Picks(p, r)
  }

  /** What the query lists, by position. */
  ghost predicate Lists(table: seq<Record>, p: string, items: seq<nat>) {
    Rows.Lists(items, table, Picker(p), MAX_TREE_RESTORE)
  }

  /** The DOS path the service gives an NT path. */
  ghost function NtToDos(vols: seq<Volume>, nt: string): Option<string> {
    if b :| IsBest(vols, nt, b) then Some(OnDrive(vols[b], nt)) else None
  }

  method Resolve(vols: seq<Volume>, nt: string) returns (dos: Option<string>)
    ensures dos == NtToDos(vols, nt)
  {
    dos := VolNtToDos(vols, nt);
    forall b, c | IsBest(vols, nt, b) && IsBest(vols, nt, c) ensures b == c {
      BestIsUnique(vols, nt, b, c);
    }
  }

  /** The records at the listed positions. */
  ghost function Listed(table: seq<Record>, items: seq<nat>): (rs: seq<Record>)
    requires forall k :: 0 <= k < |items| ==> items[k] < |table|
    ensures |rs| == |items|
  {
    seq(|items|, k requires 0 <= k < |items| => table[items[k]])
  }

  /** The rows as the restore uses them. */
  ghost function RowsOf(vols: seq<Volume>, rs: seq<Record>): (rows: seq<Row>)
    ensures |rows| == |rs|
  {
    seq(|rs|, k requires 0 <= k < |rs| => RowOf(vols, rs[k]))
  }

  ghost function RowOf(vols: seq<Volume>, r: Record): Row {
    Row(r.id, NtToDos(vols, r.orig))
  }

  // ------------------------------------------------------------------ the request

  /** Requests refused before the query: no prefix, one outside the shares, on no mapped volume, or too
      long in NT form. */
  ghost predicate Refused(vols: seq<Volume>, shares: seq<string>, prefix: string) {
    || !Allowed(shares, prefix)
    || DosToNt(vols, prefix).None?
    || |DosToNt(vols, prefix).value| > MAX_TREE_PREFIX
    || DosToNt(vols, prefix).value == ""
  }

  /** A request with a mapped drive goes ahead exactly when its prefix is allowed and at most 512 units in NT
      form. */
  lemma RefusedIff(vols: seq<Volume>, shares: seq<string>, prefix: string, b: nat)
    requires GoodMap(vols) && b < |vols| && prefix != "" && Up(prefix[0]) == vols[b].drive
    ensures !Refused(vols, shares, prefix) <==> Allowed(shares, prefix) && |vols[b].device| + |prefix| - 2 <= 512
  {
    if DriveAbsolute(prefix) {
      DriveIndexOf(vols, prefix, b);
    }
  }

  /** One with any other drive is refused. */
  lemma UnmappedIsRefused(vols: seq<Volume>, shares: seq<string>, prefix: string)
    requires forall b :: 0 <= b < |vols| && prefix != "" ==> Up(prefix[0]) != Up(vols[b].drive)
    ensures Refused(vols, shares, prefix)
  {
  }

  /** RestoreTreeByPrefix over a table in the query's order; `stopAt` is how many rows were handled when
      the stop event was seen. */
  method RestoreTreeByPrefix(svc: Restorer, vols: seq<Volume>, table: seq<Record>, prefix: string, stopAt: nat)
    returns (ok: bool, ghost items: seq<nat>, ghost outcomes: seq<Outcome>)
    modifies svc
    ensures Refused(vols, svc.shares, prefix) ==> !ok && svc.Value() == old(svc.Value())
    ensures !Refused(vols, svc.shares, prefix) ==>
              var p := DosToNt(vols, prefix).value;
              && Lists(table, p, items)
              && var rows := RowsOf(vols, Listed(table, items));
                 var n := Min(stopAt, |rows|);
                 && (outcomes, svc.Value()) == RestoreAll(svc.shares, svc.refused, old(svc.Value()), rows[..n])
                 && (ok <==> n > 0 && AllRestored(outcomes))
  {
    ok, items, outcomes := false, [], [];
    if prefix == "" {
      return;
    }
    var allowed := DestIsAllowed(prefix, svc.shares);
    if !allowed {
      return;
    }
    var nt := VolDosToNt(vols, prefix);
    if nt.None? || |nt.value| == 0 || |nt.value| > MAX_TREE_PREFIX {
      return;
    }
    var buffer, len := PrefixPattern(nt.value);
    var listed := ListByOrigPathPrefix(table, nt.value, buffer[..len]);
    items := listed;
    var rows := ResolveAll(vols, table, listed);
    var okCount, failCount, done := svc.RestoreTree(rows, stopAt);
    outcomes := done;
    ok := failCount == 0 && okCount > 0;
  }

  method ListByOrigPathPrefix(table: seq<Record>, ghost p: string, pattern: string) returns (items: seq<nat>)
    requires pattern == Escaped(p) + "%"
    ensures Lists(table, p, items)
  {
    var pick := (r: Record) => r.live && Like(pattern, r.orig);
    items := Rows.Fetch(table, pick, MAX_TREE_RESTORE);
    SameRows(items, table, pick, Picker(p), MAX_TREE_RESTORE);
  }

  lemma SameRows(items: seq<nat>, table: seq<Record>, f: Record -> bool, g: Record -> bool, limit: nat)
    requires Rows.Lists(items, table, f, limit) && forall r :: f(r) <==> g(r)
    ensures Rows.Lists(items, table, g, limit)
  {
    Rows.CountAgrees(table, f, g);
    forall j | 0 <= j < |items| ensures Rows.Before(table, items[j], g) == j {
      Rows.CountAgrees(table[..items[j]], f, g);
    }
  }

  method ResolveAll(vols: seq<Volume>, table: seq<Record>, items: seq<nat>) returns (rows: seq<Row>)
    requires forall k :: 0 <= k < |items| ==> items[k] < |table|
    ensures rows == RowsOf(vols, Listed(table, items))
  {
    rows := [];
    for k := 0 to |items|
      invariant |rows| == k && forall j :: 0 <= j < k ==> rows[j] == RowOf(vols, table[items[j]])
    {
      var dos := Resolve(vols, table[items[k]].orig);
      rows := rows + [Row(table[items[k]].id, dos)];
    }
  }

  // ------------------------------------------------------------------ which rows, at which paths

  /** Row `i` is live, lies under `p` or next to it under a longer name, and fewer than the cap are listed
      before it. */
  ghost predicate Chosen(table: seq<Record>, p: string, i: int) {
    && 0 <= i < |table| && table[i].live && (Under(p, table[i].orig) || Beside(p, table[i].orig))
    && Rows.Before(table, i, Picker(p)) < 5000
  }

  /** The components of `p` start those of `s`, ignoring case. */
  ghost predicate Under(p: string, s: string) {
    Split(Fold(p)) <= Split(Fold(s))
  }

  /** `s` has the parent of `p` above it, and below that a name that extends the last component of `p`. */
  ghost predicate Beside(p: string, s: string) {
    var ps, ss := Split(Fold(p)), Split(Fold(s));
    var k := |ps| - 1;
    |ps| <= |ss| && ps[..k] == ss[..k] && ps[k] < ss[k]
  }

  lemma ListedIsChosen(table: seq<Record>, p: string, items: seq<nat>)
    requires Lists(table, p, items)
    ensures forall j, k :: 0 <= j < k < |items| ==> items[j] < items[k]
    ensures forall i: nat :: i in items <==> Chosen(table, p, i)
  {
    Rows.ListsExactly(items, table, Picker(p), MAX_TREE_RESTORE);
    forall i: nat ensures i in items <==> Chosen(table, p, i) {
      if i < |table| {
        TreeQuerySelects(p, table[i].orig);
      }
    }
  }

  /** The path a row goes back to. */
  ghost function PathOf(vols: seq<Volume>, r: Record): string {
    if NtToDos(vols, r.orig).Some? then NtToDos(vols, r.orig).value else ""
  }

  ghost function Key(vols: seq<Volume>, r: Record): string {
    Fold(PathOf(vols, r))
  }

  /** `nt` as the driver records it: a mapped device, one backslash, and more. */
  ghost predicate Recorded(vols: seq<Volume>, nt: string) {
    exists b :: 0 <= b < |vols| && RecordedOn(vols[b], nt)
  }

  ghost predicate RecordedOn(v: Volume, nt: string) {
    v.device <= nt && |nt| > |v.device| + 1 && nt[|v.device|] == '\\' && nt[|v.device| + 1] != '\\'
  }

  /** The drive in the device's place. */
  function PathOn(v: Volume, nt: string): string
    requires |v.device| <= |nt|
  {
    [v.drive, ':'] + nt[|v.device|..]
  }

  lemma ResolvesTo(vols: seq<Volume>, nt: string, b: nat)
    requires GoodMap(vols) && b < |vols| && RecordedOn(vols[b], nt)
    ensures NtToDos(vols, nt) == Some(PathOn(vols[b], nt))
  {
    var dev := vols[b].device;
    FoldSlice(nt, 0, |dev|);
    BestOnBoundary(vols, nt, b);
    forall c | IsBest(vols, nt, c) ensures c == b {
      BestIsUnique(vols, nt, b, c);
    }
    var tail := nt[|dev|..];
    assert tail == ['\\'] + tail[1..] && tail[1..][0] == tail[1];
    assert StripSlashes(tail) == tail[1..];
    assert OnDrive(vols[b], nt) == PathOn(vols[b], nt);
  }

  /** Sorted NT paths are sorted, drive by drive, as DOS paths. */
  lemma OrderOnDrives(vols: seq<Volume>, r: Record, s: Record)
    requires GoodMap(vols) && Recorded(vols, r.orig) && Recorded(vols, s.orig)
    requires r.orig == s.orig || Before(r.orig, s.orig)
    ensures PathOf(vols, r) != "" && PathOf(vols, s) != "" && Sorted(PathOf(vols, r), PathOf(vols, s))
  {
    var b :| 0 <= b < |vols| && RecordedOn(vols[b], r.orig);
    var c :| 0 <= c < |vols| && RecordedOn(vols[c], s.orig);
    ResolvesTo(vols, r.orig, b);
    ResolvesTo(vols, s.orig, c);
    if b == c && r.orig != s.orig {
      OrderOnDrive(vols[b], r.orig, s.orig);
    }
  }

  lemma OrderOnDrive(v: Volume, a: string, b: string)
    requires v.device <= a && v.device <= b && Before(a, b)
    ensures Before(PathOn(v, a), PathOn(v, b))
  {
    assert a == v.device + a[|v.device|..] && b == v.device + b[|v.device|..];
    OrderSurvivesMapping(v.device, [v.drive, ':'], a[|v.device|..], b[|v.device|..]);
  }

  // ------------------------------------------------------------------ restoring what was listed

  /** Rows in the query's order, with an id each. */
  ghost predicate Ordered(rs: seq<Record>) {
    forall j, k :: 0 <= j < k < |rs| ==>
      rs[j].id != rs[k].id && (rs[j].orig == rs[k].orig || Before(rs[j].orig, rs[k].orig))
  }

  /** The row's copy is there and its path free, allowed, and below nothing but directories. */
  ghost predicate Fit(vols: seq<Volume>, shares: seq<string>, refused: set<string>, w: World, r: Record) {
    var path, key := PathOf(vols, r), Key(vols, r);
    && Recorded(vols, r.orig) && r.id in w.live && r.id in w.store && Allowed(shares, path)
    && Clean(key) && |key| < MAX_RECON_PATH && key !in w.nodes && Unobstructed(refused, w.nodes, key)
  }

  /** If `r` goes back above `s`, it is a directory, and `s` spells it alike. */
  ghost predicate Nests(vols: seq<Volume>, w: World, r: Record, s: Record) {
    IsAncestor(Key(vols, r), Key(vols, s)) ==>
      r.id in w.store && w.store[r.id] == Dir && IsAncestor(PathOf(vols, r), PathOf(vols, s))
  }

  ghost predicate AllFit(vols: seq<Volume>, shares: seq<string>, refused: set<string>, w: World, rs: seq<Record>) {
    && (forall k :: 0 <= k < |rs| ==> Fit(vols, shares, refused, w, rs[k]))
    && (forall j, k :: 0 <= j < |rs| && 0 <= k < |rs| ==> Nests(vols, w, rs[j], rs[k]))
  }

  ghost predicate AllDiffer(vols: seq<Volume>, rs: seq<Record>) {
    forall j, k :: 0 <= j < k < |rs| ==> Key(vols, rs[j]) != Key(vols, rs[k])
  }

  lemma RowsAreFit(vols: seq<Volume>, shares: seq<string>, refused: set<string>, w: World, rs: seq<Record>)
    requires Ordered(rs) && AllFit(vols, shares, refused, w, rs)
    ensures Present(shares, w, RowsOf(vols, rs)) && Placed(refused, w.nodes, EntriesOf(w, RowsOf(vols, rs)))
    ensures forall k :: 0 <= k < |rs| ==> EntriesOf(w, RowsOf(vols, rs))[k].path == Key(vols, rs[k])
  {
    var rows := RowsOf(vols, rs);
    forall k | 0 <= k < |rs| ensures rows[k].dst == Some(PathOf(vols, rs[k])) && rows[k].id == rs[k].id {
      assert Fit(vols, shares, refused, w, rs[k]);
    }
    assert Present(shares, w, rows);
    var es := EntriesOf(w, rows);
    forall k | 0 <= k < |rs| ensures es[k] == Entry(Key(vols, rs[k]), w.store[rs[k].id]) {
      assert es[k] == EntryOf(w, rows[k]);
    }
    forall j, k | 0 <= j < |rs| && 0 <= k < |rs| && IsAncestor(es[j].path, es[k].path) ensures es[j].kind == Dir {
      assert Nests(vols, w, rs[j], rs[k]);
    }
  }

  ghost function PathsOf(vols: seq<Volume>, rs: seq<Record>): (paths: seq<string>)
    ensures |paths| == |rs|
  {
    seq(|rs|, k requires 0 <= k < |rs| => PathOf(vols, rs[k]))
  }

  lemma PathsAreSorted(vols: seq<Volume>, shares: seq<string>, refused: set<string>, w: World, rs: seq<Record>)
    requires GoodMap(vols) && Ordered(rs) && AllFit(vols, shares, refused, w, rs)
    ensures forall k :: 0 <= k < |rs| ==> PathsOf(vols, rs)[k] != ""
    ensures forall j, k :: 0 <= j < k < |rs| ==> Sorted(PathsOf(vols, rs)[j], PathsOf(vols, rs)[k])
  {
    forall k | 0 <= k < |rs| ensures PathOf(vols, rs[k]) != "" && Recorded(vols, rs[k].orig) {
      assert Fit(vols, shares, refused, w, rs[k]);
    }
    forall j, k | 0 <= j < k < |rs| ensures Sorted(PathOf(vols, rs[j]), PathOf(vols, rs[k])) {
      OrderOnDrives(vols, rs[j], rs[k]);
    }
  }

  lemma ListedTopDown(vols: seq<Volume>, shares: seq<string>, refused: set<string>, w: World, rs: seq<Record>)
    requires GoodMap(vols) && Ordered(rs) && AllFit(vols, shares, refused, w, rs)
    ensures Present(shares, w, RowsOf(vols, rs))
    ensures TopDown(EntriesOf(w, RowsOf(vols, rs))) <==> AllDiffer(vols, rs)
  {
    RowsAreFit(vols, shares, refused, w, rs);
    PathsAreSorted(vols, shares, refused, w, rs);
    var paths := PathsOf(vols, rs);
    forall j, k | 0 <= j < |paths| && 0 <= k < |paths| && IsAncestor(Fold(paths[j]), Fold(paths[k]))
      ensures IsAncestor(paths[j], paths[k])
    {
      assert Nests(vols, w, rs[j], rs[k]);
    }
    SortedIsTopDown(paths, EntriesOf(w, RowsOf(vols, rs)));
  }

  lemma ListedComeBackIff(vols: seq<Volume>, shares: seq<string>, refused: set<string>, w: World, rs: seq<Record>)
    requires GoodMap(vols) && Ordered(rs) && AllFit(vols, shares, refused, w, rs) && WellFormed(w.nodes)
    ensures AllRestored(RestoreAll(shares, refused, w, RowsOf(vols, rs)).0) <==> AllDiffer(vols, rs)
  {
    RowsAreFit(vols, shares, refused, w, rs);
    ListedTopDown(vols, shares, refused, w, rs);
    TreeComesBackIff(shares, refused, w, RowsOf(vols, rs));
  }

  lemma ListedComeBack(vols: seq<Volume>, shares: seq<string>, refused: set<string>, w: World, rs: seq<Record>, q: string)
    requires GoodMap(vols) && Ordered(rs) && AllFit(vols, shares, refused, w, rs) && AllDiffer(vols, rs)
    ensures var (outcomes, t) := RestoreAll(shares, refused, w, RowsOf(vols, rs));
            && AllRestored(outcomes) && t.store == w.store - Ids(RowsOf(vols, rs))
            && (q in t.nodes <==>
                  q in w.nodes || exists r :: r in rs && (Key(vols, r) == q || IsAncestor(q, Key(vols, r))))
            && (q in w.nodes ==> t.nodes[q] == w.nodes[q])
            && (q in t.nodes && q !in w.nodes && (forall r :: r in rs ==> Key(vols, r) != q) ==> t.nodes[q] == Dir)
  {
    var rows := RowsOf(vols, rs);
    RowsAreFit(vols, shares, refused, w, rs);
    ListedTopDown(vols, shares, refused, w, rs);
    TreeComesBack(shares, refused, w, rows);
    TreeExactly(shares, refused, w, rows, q);
    TargetsOf(vols, rs, EntriesOf(w, rows), q);
  }

  lemma TargetsOf(vols: seq<Volume>, rs: seq<Record>, es: seq<Entry>, q: string)
    requires |es| == |rs| && forall k :: 0 <= k < |rs| ==> es[k].path == Key(vols, rs[k])
    ensures IsTarget(es, q) <==> exists r :: r in rs && Key(vols, r) == q
    ensures IsAbove(es, q) <==> exists r :: r in rs && IsAncestor(q, Key(vols, r))
  {
  }

  lemma ListedContents(vols: seq<Volume>, shares: seq<string>, refused: set<string>, w: World, rs: seq<Record>, r: Record)
    requires GoodMap(vols) && Ordered(rs) && AllFit(vols, shares, refused, w, rs) && AllDiffer(vols, rs) && r in rs
    ensures var t := RestoreAll(shares, refused, w, RowsOf(vols, rs)).1;
            r.id in w.store && Key(vols, r) in t.nodes && t.nodes[Key(vols, r)] == w.store[r.id]
  {
    var rows := RowsOf(vols, rs);
    RowsAreFit(vols, shares, refused, w, rs);
    ListedTopDown(vols, shares, refused, w, rs);
    var k :| 0 <= k < |rs| && rs[k] == r;
    RowComesBack(shares, refused, w, rows, k);
    assert rows[k] == RowOf(vols, r);
  }

  lemma RowComesBack(shares: seq<string>, refused: set<string>, w: World, rows: seq<Row>, k: nat)
    requires k < |rows| && Present(shares, w, rows) && Plantable(refused, w.nodes, EntriesOf(w, rows))
    ensures var t, key := RestoreAll(shares, refused, w, rows).1, Fold(rows[k].dst.value);
            key in t.nodes && t.nodes[key] == w.store[rows[k].id]
  {
    TreeExactly(shares, refused, w, rows, Fold(rows[k].dst.value));
  }

  // ------------------------------------------------------------------ the whole request

  /** Every chosen row is fit, and each nests in those above it. */
  ghost predicate Restorable(vols: seq<Volume>, shares: seq<string>, refused: set<string>, w: World,
                             table: seq<Record>, p: string)
  {
    && (forall i :: Chosen(table, p, i) ==> Fit(vols, shares, refused, w, table[i]))
    && (forall i, j :: Chosen(table, p, i) && Chosen(table, p, j) ==> Nests(vols, w, table[i], table[j]))
  }

  /** No two chosen rows go back to the same path, in whatever case it is spelled. */
  ghost predicate NoneTwice(vols: seq<Volume>, table: seq<Record>, p: string) {
    forall i, j :: Chosen(table, p, i) && Chosen(table, p, j) && i != j ==> Key(vols, table[i]) != Key(vols, table[j])
  }

  /** Some chosen row goes back to `q`, or to a path below it. */
  ghost predicate GoesTo(vols: seq<Volume>, table: seq<Record>, p: string, q: string) {
    exists i :: Chosen(table, p, i) && Key(vols, table[i]) == q
  }

  ghost predicate GoesBelow(vols: seq<Volume>, table: seq<Record>, p: string, q: string) {
    exists i :: Chosen(table, p, i) && IsAncestor(q, Key(vols, table[i]))
  }

  lemma ListedIn(table: seq<Record>, p: string, items: seq<nat>, r: Record)
    requires Lists(table, p, items)
    ensures r in Listed(table, items) <==> exists i :: Chosen(table, p, i) && table[i] == r
  {
    ListedIsChosen(table, p, items);
    var rs := Listed(table, items);
    if r in rs {
      var k :| 0 <= k < |rs| && rs[k] == r;
      assert items[k] in items;
    }
    if i :| Chosen(table, p, i) && table[i] == r {
      var k := PlaceOf(table, p, items, i);
    }
  }

  lemma ListedOrdered(table: seq<Record>, p: string, items: seq<nat>)
    requires Lists(table, p, items) && Ordered(table)
    ensures Ordered(Listed(table, items))
  {
    ListedIsChosen(table, p, items);
  }

  lemma ListedFit(vols: seq<Volume>, shares: seq<string>, refused: set<string>, w: World, table: seq<Record>, p: string,
                  items: seq<nat>)
    requires Lists(table, p, items) && Restorable(vols, shares, refused, w, table, p)
    ensures AllFit(vols, shares, refused, w, Listed(table, items))
  {
    ListedIsChosen(table, p, items);
    forall k | 0 <= k < |items| ensures Chosen(table, p, items[k]) {
      assert items[k] in items;
    }
  }

  lemma PlaceOf(table: seq<Record>, p: string, items: seq<nat>, i: int) returns (k: nat)
    requires Lists(table, p, items) && Chosen(table, p, i)
    ensures k < |items| && items[k] == i && Listed(table, items)[k] == table[i]
  {
    ListedIsChosen(table, p, items);
    assert i in items;
    k :| 0 <= k < |items| && items[k] == i;
  }

  lemma BothChosen(table: seq<Record>, p: string, items: seq<nat>, j: nat, k: nat)
    requires Lists(table, p, items) && j < k < |items|
    ensures Chosen(table, p, items[j]) && Chosen(table, p, items[k]) && items[j] < items[k]
  {
    ListedIsChosen(table, p, items);
    assert items[j] in items && items[k] in items;
  }

  lemma ListedDiffer(vols: seq<Volume>, table: seq<Record>, p: string, items: seq<nat>)
    requires Lists(table, p, items)
    ensures AllDiffer(vols, Listed(table, items)) <==> NoneTwice(vols, table, p)
  {
    var rs := Listed(table, items);
    if NoneTwice(vols, table, p) {
      forall j, k | 0 <= j < k < |rs| ensures Key(vols, rs[j]) != Key(vols, rs[k]) {
        BothChosen(table, p, items, j, k);
      }
    } else {
      var i, i' :| Chosen(table, p, i) && Chosen(table, p, i') && i != i' && Key(vols, table[i]) == Key(vols, table[i']);
      var j := PlaceOf(table, p, items, i);
      var k := PlaceOf(table, p, items, i');
      assert !AllDiffer(vols, rs) by {
        assert j < k || k < j;
      }
    }
  }

  /** A request brings its whole tree back exactly when no two of the rows it chooses go to the same path. */
  lemma RequestSucceedsIff(vols: seq<Volume>, shares: seq<string>, refused: set<string>, w: World, table: seq<Record>,
                           p: string, items: seq<nat>)
    requires GoodMap(vols) && Ordered(table) && Lists(table, p, items) && WellFormed(w.nodes)
    requires Restorable(vols, shares, refused, w, table, p)
    ensures AllRestored(RestoreAll(shares, refused, w, RowsOf(vols, Listed(table, items))).0)
            <==> NoneTwice(vols, table, p)
  {
    ListedOrdered(table, p, items);
    ListedFit(vols, shares, refused, w, table, p, items);
    ListedDiffer(vols, table, p, items);
    ListedComeBackIff(vols, shares, refused, w, Listed(table, items));
  }

  /** What the request leaves: all that was there, every chosen row's copy at its own path, the directories
      missing above those, and nothing else; in the store, all but the chosen rows' copies. */
  lemma RequestBringsBack(vols: seq<Volume>, shares: seq<string>, refused: set<string>, w: World, table: seq<Record>,
                          p: string, items: seq<nat>, q: string)
    requires GoodMap(vols) && Ordered(table) && Lists(table, p, items)
    requires Restorable(vols, shares, refused, w, table, p) && NoneTwice(vols, table, p)
    ensures var (outcomes, t) := RestoreAll(shares, refused, w, RowsOf(vols, Listed(table, items)));
            && AllRestored(outcomes)
            && (q in t.nodes <==> q in w.nodes || GoesTo(vols, table, p, q) || GoesBelow(vols, table, p, q))
            && (q in w.nodes ==> t.nodes[q] == w.nodes[q])
            && (q in t.nodes && q !in w.nodes && !GoesTo(vols, table, p, q) ==> t.nodes[q] == Dir)
            && (forall id :: id in t.store <==> id in w.store && !exists i :: Chosen(table, p, i) && table[i].id == id)
  {
    var rs := Listed(table, items);
    ListedOrdered(table, p, items);
    ListedFit(vols, shares, refused, w, table, p, items);
    ListedDiffer(vols, table, p, items);
    ListedComeBack(vols, shares, refused, w, rs, q);
    forall r ensures r in rs <==> exists i :: Chosen(table, p, i) && table[i] == r {
      ListedIn(table, p, items, r);
    }
    ListedIds(vols, rs);
  }

  lemma ListedIds(vols: seq<Volume>, rs: seq<Record>)
    ensures forall id :: id in Ids(RowsOf(vols, rs)) <==> exists r :: r in rs && r.id == id
  {
    var rows := RowsOf(vols, rs);
    forall r | r in rs ensures r.id in Ids(rows) {
      var k :| 0 <= k < |rs| && rs[k] == r;
      assert rows[k] in rows;
    }
  }

  /** The contents are those of the copies. */
  lemma RequestContents(vols: seq<Volume>, shares: seq<string>, refused: set<string>, w: World, table: seq<Record>,
                        p: string, items: seq<nat>, i: nat)
    requires GoodMap(vols) && Ordered(table) && Lists(table, p, items)
    requires Restorable(vols, shares, refused, w, table, p) && NoneTwice(vols, table, p) && Chosen(table, p, i)
    ensures var t := RestoreAll(shares, refused, w, RowsOf(vols, Listed(table, items))).1;
            && table[i].id in w.store && Key(vols, table[i]) in t.nodes
            && t.nodes[Key(vols, table[i])] == w.store[table[i].id]
  {
    ListedOrdered(table, p, items);
    ListedFit(vols, shares, refused, w, table, p, items);
    ListedDiffer(vols, table, p, items);
    ListedIn(table, p, items, table[i]);
    ListedContents(vols, shares, refused, w, Listed(table, items), table[i]);
  }
}
