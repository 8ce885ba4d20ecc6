/**
 Reconciling landed rows with the recycle folders: sort by directory, one snapshot per directory, binary
 search per row, against looking each row's file up by itself. The file system does not change meanwhile.
 */
module Reconcile {
  import opened Common
  import Rows

  type ItemId = int

  datatype Status = Landed | Restored | Purged

  /** A landed row; absent paths are empty. */
  datatype Item = Item(id: ItemId, recyclePath: string, origDos: string)

  /** What the file system answers: a directory's entries, if it can be read, and whether a path exists. */
  datatype World = World(listing: string -> Option<seq<string>>, present: string -> bool)

  datatype Stats = Stats(landed: nat, restored: nat, purged: nat, skipped: nat)

  // ------------------------------------------------------------------ one row on its own

  /** DirOf: the directory part, cut to its buffer. */
  function DirOf(path: string): string {
    var dir := Parent(path);
    if |dir| >= MAX_RECON_PATH then dir[..MAX_RECON_PATH - 1] else dir
  }

  predicate SameName(a: string, b: string) {
    SameText(a, b)
  }

  predicate IsDots(name: string) {
    name == "." || name == ".."
  }

  /** A directory can be read only if its search pattern fits the buffer. */
  function Entries(w: World, dir: string): Option<seq<string>> {
    if |dir| + 3 > MAX_RECON_PATH then None else w.listing(dir)
  }

  datatype Outcome = Unverified | Found | Back | Gone

  /** What looking up the row's file alone concludes. */
  ghost predicate InFolder(names: seq<string>, base: string) {
    exists i :: 0 <= i < |names| && !IsDots(names[i]) && SameName(names[i], base)
  }

  ghost function Verdict(w: World, it: Item): Outcome {
    if it.recyclePath == "" || Entries(w, DirOf(it.recyclePath)).None? then Unverified
    else if InFolder(Entries(w, DirOf(it.recyclePath)).value, BaseName(it.recyclePath)) then Found
    else if it.origDos != "" && w.present(it.origDos) then Back
    else Gone
  }

  /** The row's status given its verdict. */
  function StatusAfter(o: Outcome, before: Status): Status {
    match o
    case Back => Restored
    case Gone => Purged
    case _ => before
  }

  function AddTo(st: Stats, o: Outcome): Stats {
    match o
    case Unverified => st.(skipped := st.skipped + 1)
    case Found => st.(landed := st.landed + 1)
    case Back => st.(restored := st.restored + 1)
    case Gone => st.(purged := st.purged + 1)
  }

  function TallyBy(f: Item -> Outcome, items: seq<Item>): Stats {
    if items == [] then Stats(0, 0, 0, 0) else AddTo(TallyBy(f, items[..|items| - 1]), f(items[|items| - 1]))
  }

  ghost function Tally(w: World, items: seq<Item>): Stats {
    TallyBy((it: Item) => Verdict(w, it), items)
  }

  /** Every row is counted once. */
  lemma {:induction false} TallyIsComplete(f: Item -> Outcome, items: seq<Item>)
    ensures var st := TallyBy(f, items); st.landed + st.restored + st.purged + st.skipped == |items|
  {
    if items != [] {
      TallyIsComplete(f, items[..|items| - 1]);
    }
  }

  // ------------------------------------------------------------------ what that comes to

  /** The row's folder can be read: it is named, its search pattern fits the buffer, and it is listed. */
  predicate Readable(w: World, it: Item) {
    it.recyclePath != "" && |Parent(it.recyclePath)| + 3 <= 1024 && w.listing(Parent(it.recyclePath)).Some?
  }

  /** The row's file is not in its folder although that can be read. */
  ghost predicate Missing(w: World, it: Item) {
    Readable(w, it) &&
    forall name :: name in w.listing(Parent(it.recyclePath)).value && name != "." && name != ".." ==>
      !SameText(name, BaseName(it.recyclePath))
  }

  /** Something is at the row's original path. */
  predicate IsBack(w: World, it: Item) {
    it.origDos != "" && w.present(it.origDos)
  }

  /** A row whose file is missing becomes restored if its original path is there again and purged if it is
      not; every other row keeps its status. */
  ghost predicate Reconciled(w: World, before: map<ItemId, Status>, db: map<ItemId, Status>, items: seq<Item>) {
    && db.Keys == before.Keys
    && (forall it :: it in items && it.id in db ==>
          && (Missing(w, it) && IsBack(w, it) ==> db[it.id] == Restored)
          && (Missing(w, it) && !IsBack(w, it) ==> db[it.id] == Purged)
          && (!Missing(w, it) ==> db[it.id] == before[it.id]))
    && (forall id :: id in db && (forall it :: it in items ==> it.id != id) ==> db[id] == before[id])
  }

  /** The counters are those of the rows restored, purged, still there, and impossible to tell. */
  ghost predicate Counted(w: World, st: Stats, items: seq<Item>) {
    && st.restored == Rows.Count(items, it => Missing(w, it) && IsBack(w, it))
    && st.purged == Rows.Count(items, it => Missing(w, it) && !IsBack(w, it))
    && st.landed == Rows.Count(items, it => Readable(w, it) && !Missing(w, it))
    && st.skipped == Rows.Count(items, it => !Readable(w, it))
  }

  lemma VerdictMeans(w: World, it: Item)
    ensures Verdict(w, it) == Unverified <==> !Readable(w, it)
    ensures Verdict(w, it) == Found <==> Readable(w, it) && !Missing(w, it)
    ensures Verdict(w, it) == Back <==> Missing(w, it) && IsBack(w, it)
    ensures Verdict(w, it) == Gone <==> Missing(w, it) && !IsBack(w, it)
  {
    if Readable(w, it) {
      var names := w.listing(Parent(it.recyclePath)).value;
      forall name | name in names ensures exists i :: 0 <= i < |names| && names[i] == name {
      }
    }
  }

  lemma {:induction false} TallyCounts(w: World, items: seq<Item>)
    ensures Counted(w, Tally(w, items), items)
  {
    if items != [] {
      var k := |items| - 1;
      TallyCounts(w, items[..k]);
      CountedSnoc(w, Tally(w, items[..k]), items[..k], items[k]);
      assert items == items[..k] + [items[k]];
    }
  }

  lemma CountedSnoc(w: World, st: Stats, items: seq<Item>, it: Item)
    requires Counted(w, st, items)
    ensures Counted(w, AddTo(st, Verdict(w, it)), items + [it])
  {
    VerdictMeans(w, it);
    assert (items + [it])[..|items|] == items;
  }

  lemma AppliedMeans(w: World, before: map<ItemId, Status>, db: map<ItemId, Status>, items: seq<Item>)
    requires Applied(w, before, db, items)
    ensures Reconciled(w, before, db, items)
  {
    forall it | it in items && it.id in db
      ensures (Missing(w, it) && IsBack(w, it) ==> db[it.id] == Restored)
      ensures (Missing(w, it) && !IsBack(w, it) ==> db[it.id] == Purged)
      ensures (!Missing(w, it) ==> db[it.id] == before[it.id])
    {
      var i :| 0 <= i < |items| && items[i] == it;
      VerdictMeans(w, it);
    }
  }

  // ------------------------------------------------------------------ text order

  function Lex(a: string, b: string): int {
    if a == "" then (if b == "" then 0 else -1)
    else if b == "" then 1
    else if a[0] < b[0] then -1
    else if a[0] > b[0] then 1
    else Lex(a[1..], b[1..])
  }

  lemma {:induction false} LexZero(a: string, b: string)
    ensures Lex(a, b) == 0 <==> a == b
  {
    if a != "" && b != "" && a[0] == b[0] {
      LexZero(a[1..], b[1..]);
      assert a == [a[0]] + a[1..] && b == [b[0]] + b[1..];
    }
  }

  lemma {:induction false} LexFlip(a: string, b: string)
    ensures Lex(b, a) == -Lex(a, b)
  {
    if a != "" && b != "" && a[0] == b[0] {
      LexFlip(a[1..], b[1..]);
    }
  }

  lemma {:induction false} LexChain(a: string, b: string, c: string)
    requires Lex(a, b) <= 0 && Lex(b, c) <= 0
    ensures Lex(a, c) <= 0 && (Lex(a, b) < 0 || Lex(b, c) < 0 ==> Lex(a, c) < 0)
  {
    if a != "" && b != "" && c != "" && a[0] == b[0] == c[0] {
      LexChain(a[1..], b[1..], c[1..]);
    }
  }

  /** Comparing the common length first and the lengths after is the same order. */
  lemma {:induction false} LexByLength(a: string, b: string)
    ensures var m := if |a| < |b| then |a| else |b|;
            Lex(a, b) == if Lex(a[..m], b[..m]) != 0 then Lex(a[..m], b[..m])
                         else if |a| != |b| then (if |a| < |b| then -1 else 1) else 0
  {
    var m := if |a| < |b| then |a| else |b|;
    if a != "" && b != "" && a[0] == b[0] {
      LexByLength(a[1..], b[1..]);
      assert a[..m][1..] == a[1..][..m - 1] && b[..m][1..] == b[1..][..m - 1];
    }
  }

  // ------------------------------------------------------------------ sorting

  ghost predicate TotalPreorder<T(!new)>(cmp: (T, T) -> int) {
    && (forall a, b :: cmp(a, b) <= 0 || cmp(b, a) <= 0)
    && (forall a, b, c :: cmp(a, b) <= 0 && cmp(b, c) <= 0 ==> cmp(a, c) <= 0)
  }

  /** `cmp` compares the texts that `key` extracts. */
  ghost predicate Compares<T(!new)>(cmp: (T, T) -> int, key: T -> string) {
    forall a, b :: cmp(a, b) == Lex(key(a), key(b))
  }

  lemma ComparingIsPreorder<T(!new)>(cmp: (T, T) -> int, key: T -> string)
    requires Compares(cmp, key)
    ensures TotalPreorder(cmp)
    ensures forall a, b :: cmp(a, b) == 0 <==> key(a) == key(b)
  {
    forall a, b ensures (cmp(a, b) <= 0 || cmp(b, a) <= 0) && (cmp(a, b) == 0 <==> key(a) == key(b)) {
      LexFlip(key(a), key(b));
      LexZero(key(a), key(b));
    }
    forall a, b, c | cmp(a, b) <= 0 && cmp(b, c) <= 0 ensures cmp(a, c) <= 0 {
      LexChain(key(a), key(b), key(c));
    }
  }

  ghost predicate SortedBy<T(!new)>(s: seq<T>, cmp: (T, T) -> int) {
    forall i, j :: 0 <= i < j < |s| ==> cmp(s[i], s[j]) <= 0
  }

  function Insert<T>(x: T, s: seq<T>, cmp: (T, T) -> int): seq<T> {
    if s == [] then [x]
    else if cmp(x, s[0]) <= 0 then [x] + s
    else [s[0]] + Insert(x, s[1..], cmp)
  }

  function Sort<T>(s: seq<T>, cmp: (T, T) -> int): seq<T> {
    if s == [] then [] else Insert(s[|s| - 1], Sort(s[..|s| - 1], cmp), cmp)
  }

  lemma {:induction false} InsertHas<T>(x: T, s: seq<T>, cmp: (T, T) -> int)
    ensures multiset(Insert(x, s, cmp)) == multiset(s) + multiset{x}
  {
    if s != [] {
      assert s == [s[0]] + s[1..];
      if cmp(x, s[0]) > 0 {
        InsertHas(x, s[1..], cmp);
      }
    }
  }

  lemma {:induction false} InsertSorts<T(!new)>(x: T, s: seq<T>, cmp: (T, T) -> int, key: T -> string)
    requires Compares(cmp, key) && SortedBy(s, cmp)
    ensures SortedBy(Insert(x, s, cmp), cmp)
  {
    if s != [] {
      if cmp(x, s[0]) <= 0 {
        forall j | 0 <= j < |s| ensures cmp(x, s[j]) <= 0 {
          if j > 0 {
            LexChain(key(x), key(s[0]), key(s[j]));
          }
        }
      } else {
        InsertSorts(x, s[1..], cmp, key);
        InsertBelow(x, s, cmp, key);
      }
    }
  }

  lemma InsertBelow<T(!new)>(x: T, s: seq<T>, cmp: (T, T) -> int, key: T -> string)
    requires s != [] && Compares(cmp, key) && SortedBy(s, cmp) && cmp(x, s[0]) > 0
    ensures forall j :: 0 <= j < |Insert(x, s[1..], cmp)| ==> cmp(s[0], Insert(x, s[1..], cmp)[j]) <= 0
  {
    var r := Insert(x, s[1..], cmp);
    InsertHas(x, s[1..], cmp);
    LexFlip(key(x), key(s[0]));
    forall j | 0 <= j < |r| ensures cmp(s[0], r[j]) <= 0 {
      assert r[j] in multiset(r);
      assert r[j] == x || r[j] in s[1..];
    }
  }

  lemma {:induction false} SortSorts<T(!new)>(s: seq<T>, cmp: (T, T) -> int, key: T -> string)
    requires Compares(cmp, key)
    ensures SortedBy(Sort(s, cmp), cmp)
  {
    if s != [] {
      SortSorts(s[..|s| - 1], cmp, key);
      InsertSorts(s[|s| - 1], Sort(s[..|s| - 1], cmp), cmp, key);
    }
  }

  lemma {:induction false} SortHas<T(!new)>(s: seq<T>, cmp: (T, T) -> int)
    ensures multiset(Sort(s, cmp)) == multiset(s)
  {
    if s != [] {
      SortHas(s[..|s| - 1], cmp);
      InsertHas(s[|s| - 1], Sort(s[..|s| - 1], cmp), cmp);
      assert s == s[..|s| - 1] + [s[|s| - 1]];
    }
  }

  // ------------------------------------------------------------------ the two comparators

  function CompareNames(a: string, b: string): int {
    Lex(Fold(a), Fold(b))
  }

  /** What CompareItemsByRecycleDir compares: the part before the last '\', or everything without one. */
  function SortKey(it: Item): string {
    if LastSlash(it.recyclePath) < 0 then it.recyclePath else Parent(it.recyclePath)
  }

  function CompareItems(a: Item, b: Item): int {
    var sa, sb := a.recyclePath, b.recyclePath;
    var la := if LastSlash(sa) >= 0 then LastSlash(sa) else |sa|;
    var lb := if LastSlash(sb) >= 0 then LastSlash(sb) else |sb|;
    var m := if la < lb then la else lb;
    var c := Lex(sa[..m], sb[..m]);
    if c != 0 then c else if la != lb then (if la < lb then -1 else 1) else 0
  }

  lemma CompareItemsIsKeyOrder(a: Item, b: Item)
    ensures CompareItems(a, b) == Lex(SortKey(a), SortKey(b))
  {
    var ka, kb := SortKey(a), SortKey(b);
    LexByLength(ka, kb);
    var m := if |ka| < |kb| then |ka| else |kb|;
    assert ka[..m] == a.recyclePath[..m] && kb[..m] == b.recyclePath[..m];
  }

  /** The comparator is a total preorder, and rows it calls equal share their directory. */
  lemma CompareItemsIsPreorder()
    ensures TotalPreorder(CompareItems) && Compares(CompareItems, SortKey)
    ensures forall a, b :: CompareItems(a, b) == 0 <==> SortKey(a) == SortKey(b)
  {
    forall a, b ensures CompareItems(a, b) == Lex(SortKey(a), SortKey(b)) {
      CompareItemsIsKeyOrder(a, b);
    }
    ComparingIsPreorder(CompareItems, SortKey);
  }

  // ------------------------------------------------------------------ the service's code

  /** SnapshotDir: the directory's entries without "." and "..", sorted by name; None if it cannot be read. */
  method SnapshotDir(w: World, dir: string) returns (names: Option<seq<string>>)
    ensures names.None? <==> Entries(w, dir).None?
    ensures names.Some? ==> SortedBy(names.value, CompareNames) &&
                            forall n :: n in names.value <==> n in Entries(w, dir).value && !IsDots(n)
  {
    if |dir| + 3 > MAX_RECON_PATH || w.listing(dir).None? {
      return None;
    }
    var all := w.listing(dir).value;
    var kept := [];
    var i := 0;
    while i < |all|
      invariant 0 <= i <= |all|
      invariant forall n :: n in kept <==> n in all[..i] && !IsDots(n)
    {
      if !IsDots(all[i]) {
        kept := kept + [all[i]];
      }
      i := i + 1;
    }
    SortSorts(kept, CompareNames, Fold);
    SortHas(kept, CompareNames);
    names := Some(Sort(kept, CompareNames));
    forall n ensures n in names.value <==> n in kept {
      assert n in multiset(names.value) <==> n in multiset(kept);
    }
  }

  /** NameArrayContains: binary search. */
  method NameArrayContains(names: seq<string>, name: string) returns (found: bool)
    requires SortedBy(names, CompareNames)
    ensures found <==> exists i :: 0 <= i < |names| && SameName(names[i], name)
  {
    var lo, hi := 0, |names| - 1;
    while lo <= hi
      invariant 0 <= lo <= hi + 1 <= |names|
      invariant forall i :: 0 <= i < lo || hi < i < |names| ==> !SameName(names[i], name)
    {
      var mid := (lo + hi) / 2;
      var c := CompareNames(names[mid], name);
      SameNameIsZero(names[mid], name);
      if c == 0 {
        return true;
      }
      if c < 0 {
        NoneBelow(names, name, mid);
        lo := mid + 1;
      } else {
        NoneAbove(names, name, mid);
        hi := mid - 1;
      }
    }
    return false;
  }

  lemma SameNameIsZero(a: string, b: string)
    ensures CompareNames(a, b) == 0 <==> SameName(a, b)
    ensures CompareNames(b, a) == 0 <==> SameName(a, b)
  {
    LexZero(Fold(a), Fold(b));
    LexFlip(Fold(a), Fold(b));
    FoldsAgree(a, b);
  }

  lemma NoneBelow(names: seq<string>, name: string, mid: nat)
    requires SortedBy(names, CompareNames) && mid < |names| && CompareNames(names[mid], name) < 0
    ensures forall i :: 0 <= i <= mid ==> !SameName(names[i], name)
  {
    forall i | 0 <= i <= mid ensures !SameName(names[i], name) {
      if i < mid {
        LexChain(Fold(names[i]), Fold(names[mid]), Fold(name));
      }
      SameNameIsZero(names[i], name);
    }
  }

  lemma NoneAbove(names: seq<string>, name: string, mid: nat)
    requires SortedBy(names, CompareNames) && mid < |names| && CompareNames(names[mid], name) > 0
    ensures forall i :: mid <= i < |names| ==> !SameName(names[i], name)
  {
    LexFlip(Fold(names[mid]), Fold(name));
    forall i | mid <= i < |names| ensures !SameName(names[i], name) {
      if i > mid {
        LexChain(Fold(name), Fold(names[mid]), Fold(names[i]));
      }
      SameNameIsZero(names[i], name);
    }
  }

  /** The snapshot carried from row to row. */
  datatype Cache = Cache(have: bool, dir: string, names: Option<seq<string>>)

  ghost predicate Fresh(w: World, c: Cache) {
    c.have ==>
      (c.names.None? <==> Entries(w, c.dir).None?) &&
      (c.names.Some? ==> SortedBy(c.names.value, CompareNames) &&
                         forall n :: n in c.names.value <==> n in Entries(w, c.dir).value && !IsDots(n))
  }

  lemma SnapshotAnswers(w: World, c: Cache, base: string)
    requires Fresh(w, c) && c.have && c.names.Some?
    ensures (exists i :: 0 <= i < |c.names.value| && SameName(c.names.value[i], base))
            <==> InFolder(Entries(w, c.dir).value, base)
  {
    var names, all := c.names.value, Entries(w, c.dir).value;
    if i :| 0 <= i < |names| && SameName(names[i], base) {
      assert names[i] in all;
      var j :| 0 <= j < |all| && all[j] == names[i];
    }
    if j :| 0 <= j < |all| && !IsDots(all[j]) && SameName(all[j], base) {
      assert all[j] in names;
    }
  }

  /** The path names its directory in full: it has a separator and the directory fits its buffer. */
  predicate WellFormed(it: Item) {
    it.recyclePath != "" ==> LastSlash(it.recyclePath) >= 0 && |Parent(it.recyclePath)| < MAX_RECON_PATH
  }

  ghost predicate Increasing(dirs: seq<string>) {
    forall a, b :: 0 <= a < b < |dirs| ==> Lex(dirs[a], dirs[b]) < 0
  }

  lemma IncreasingIsDistinct(dirs: seq<string>, a: nat, b: nat)
    requires Increasing(dirs) && a < b < |dirs|
    ensures dirs[a] != dirs[b]
  {
    LexZero(dirs[a], dirs[b]);
  }

  ghost predicate DirOfSome(items: seq<Item>, d: string) {
    exists i :: 0 <= i < |items| && items[i].recyclePath != "" && DirOf(items[i].recyclePath) == d
  }

  /** The snapshots taken before row `i` are those of the rows so far; the last one is in the cache. */
  ghost predicate ScansCover(scans: seq<string>, c: Cache, s: seq<Item>, i: nat)
    requires i <= |s|
  {
    && c.have == (|scans| > 0) && (c.have ==> scans[|scans| - 1] == c.dir)
    && (forall d :: d in scans <==> DirOfSome(s[..i], d))
  }

  /** ... and they come in order, with no later row's directory before the last. */
  ghost predicate ScansAscend(scans: seq<string>, c: Cache, s: seq<Item>, i: nat) {
    Increasing(scans) && (c.have ==> AllBelow(c.dir, s, i))
  }

  ghost predicate AllBelow(d: string, s: seq<Item>, i: nat) {
    forall j :: i <= j < |s| ==> s[j].recyclePath != "" ==> Lex(d, SortKey(s[j])) <= 0
  }

  ghost predicate AllWellFormed(items: seq<Item>) {
    forall it :: it in items ==> WellFormed(it)
  }

  /** The rows done so far have their own verdict's status and every other row its old one. */
  ghost predicate Applied(w: World, before: map<ItemId, Status>, db: map<ItemId, Status>, items: seq<Item>) {
    && db.Keys == before.Keys
    && (forall i :: 0 <= i < |items| && items[i].id in db ==>
          db[items[i].id] == StatusAfter(Verdict(w, items[i]), before[items[i].id]))
    && (forall id :: id in db && !HasId(items, id) ==> db[id] == before[id])
  }

  ghost predicate HasId(items: seq<Item>, id: ItemId) {
    exists i :: 0 <= i < |items| && items[i].id == id
  }

  ghost predicate DistinctIds(items: seq<Item>) {
    forall i, j :: 0 <= i < j < |items| ==> items[i].id != items[j].id
  }

  class Service {
    /** Row statuses, and the directories enumerated in this pass. */
    var db: map<ItemId, Status>
    var scans: seq<string>

    constructor (db: map<ItemId, Status>)
      ensures this.db == db && scans == []
    {
      this.db := db;
      scans := [];
    }

    method SetStatus(id: ItemId, status: Status)
      modifies this`db
      ensures db == if id in old(db) then old(db)[id := status] else old(db)
    {
      if id in db {
        db := db[id := status];
      }
    }

    /** A new snapshot when the directory differs from the last row's. */
    method Enter(w: World, c: Cache, dir: string) returns (d: Cache)
      requires Fresh(w, c)
      modifies this`scans
      ensures Fresh(w, d) && d.have && d.dir == dir
      ensures scans == if c.have && c.dir == dir then old(scans) else old(scans) + [dir]
      ensures c.have && c.dir == dir ==> d == c
    {
      d := c;
      if !c.have || c.dir != dir {
        var names := SnapshotDir(w, dir);
        scans := scans + [dir];
        d := Cache(true, dir, names);
      }
    }

    /** The rest of the loop body, for a row whose directory has been entered. */
    method Judge(w: World, it: Item, c: Cache, st: Stats) returns (next: Stats)
      requires Fresh(w, c) && c.have && it.recyclePath != "" && c.dir == DirOf(it.recyclePath)
      modifies this`db
      ensures next == AddTo(st, Verdict(w, it))
      ensures db == if it.id in old(db) then old(db)[it.id := StatusAfter(Verdict(w, it), old(db)[it.id])] else old(db)
    {
      if c.names.None? {
        return st.(skipped := st.skipped + 1);
      }
      SnapshotAnswers(w, c, BaseName(it.recyclePath));
      var found := NameArrayContains(c.names.value, BaseName(it.recyclePath));
      if found {
        return st.(landed := st.landed + 1);
      }
      if it.origDos != "" && w.present(it.origDos) {
        SetStatus(it.id, Restored);
        next := st.(restored := st.restored + 1);
      } else {
        SetStatus(it.id, Purged);
        next := st.(purged := st.purged + 1);
      }
    }

    /** The loop's invariant before row `i` of the sorted rows. */
    ghost predicate Done(w: World, before: map<ItemId, Status>, s: seq<Item>, i: nat, c: Cache, st: Stats)
      requires i <= |s|
      reads this
    {
      && st == Tally(w, s[..i]) && Applied(w, before, db, s[..i]) && Fresh(w, c)
      && ScansCover(scans, c, s, i) && (AllWellFormed(s) ==> ScansAscend(scans, c, s, i))
    }

    /** One turn of the loop. */
    method Turn(w: World, s: seq<Item>, i: nat, c: Cache, st: Stats, ghost before: map<ItemId, Status>)
      returns (d: Cache, next: Stats)
      requires i < |s| && DistinctIds(s) && SortedBy(s, CompareItems) && Done(w, before, s, i, c, st)
      modifies this
      ensures Done(w, before, s, i + 1, d, next)
    {
      var it := s[i];
      ghost var was, scansWas := db, scans;
      TallyStep(w, s, i);
      if it.recyclePath == "" {
        d, next := c, st.(skipped := st.skipped + 1);
        SkipCovers(scans, c, s, i);
      } else {
        d := Enter(w, c, DirOf(it.recyclePath));
        next := Judge(w, it, d, st);
        EnterScans(scansWas, c, scans, d, s, i);
      }
      AppliedStep(w, before, was, db, s, i);
    }

    /** ReconcileLanded: every row gets the status that looking its own file up would give it, the counters
        agree, and each distinct directory is enumerated, once if every path names its directory in full. */
    method ReconcileLanded(w: World, items: seq<Item>) returns (st: Stats)
      requires DistinctIds(items)
      modifies this
      ensures Reconciled(w, old(db), db, items) && Counted(w, st, items)
      ensures forall d :: d in scans <==> DirOfSome(items, d)
      ensures AllWellFormed(items) ==> Increasing(scans)
    {
      st := Stats(0, 0, 0, 0);
      scans := [];
      var s := Sort(items, CompareItems);
      SortedRows(w, items);
      var c := Cache(false, "", None);
      var i := 0;
      while i < |s|
        invariant 0 <= i <= |s|
        invariant Done(w, old(db), s, i, c, st)
      {
        c, st := Turn(w, s, i, c, st, old(db));
        i := i + 1;
      }
      Finished(w, items, s, st, old(db), db, scans, c);
      AppliedMeans(w, old(db), db, items);
      TallyCounts(w, items);
    }
  }

  // ------------------------------------------------------------------ the loop's lemmas

  lemma SameElements(a: seq<Item>, b: seq<Item>)
    requires multiset(a) == multiset(b)
    ensures forall x :: x in a <==> x in b
  {
    forall x ensures x in a <==> x in b {
      assert x in multiset(a) <==> x in multiset(b);
    }
  }

  lemma DistinctSurvives(a: seq<Item>, b: seq<Item>)
    requires DistinctIds(a) && multiset(a) == multiset(b)
    ensures DistinctIds(b)
  {
    forall i, j | 0 <= i < j < |b| ensures b[i].id != b[j].id {
      if b[i].id == b[j].id {
        SameElements(a, b);
        assert b[i] in a && b[j] in a;
        assert b[i] == b[j];
        TwiceIn(b, i, j);
        OnceIn(a, b[i]);
      }
    }
  }

  lemma TwiceIn(b: seq<Item>, i: nat, j: nat)
    requires i < j < |b| && b[i] == b[j]
    ensures multiset(b)[b[i]] >= 2
  {
    assert b == b[..j] + b[j..];
    assert b[i] in b[..j] && b[i] in b[j..] by {
      assert b[..j][i] == b[i] && b[j..][0] == b[i];
    }
  }

  lemma {:induction false} OnceIn(a: seq<Item>, x: Item)
    requires DistinctIds(a)
    ensures multiset(a)[x] <= 1
  {
    if a != [] {
      var rest := a[..|a| - 1];
      OnceIn(rest, x);
      assert a == rest + [a[|a| - 1]];
      forall k | 0 <= k < |rest| ensures rest[k] != a[|a| - 1] {
        assert a[k].id != a[|a| - 1].id;
      }
    }
  }

  lemma TallyStep(w: World, s: seq<Item>, i: nat)
    requires i < |s|
    ensures Tally(w, s[..i + 1]) == AddTo(Tally(w, s[..i]), Verdict(w, s[i]))
  {
    assert s[..i + 1][..i] == s[..i];
  }

  lemma AddToCommutes(st: Stats, a: Outcome, b: Outcome)
    ensures AddTo(AddTo(st, a), b) == AddTo(AddTo(st, b), a)
  {
  }

  lemma {:induction false} TallyCons(f: Item -> Outcome, x: Item, s: seq<Item>)
    ensures TallyBy(f, [x] + s) == AddTo(TallyBy(f, s), f(x))
  {
    if s == [] {
      assert ([x] + s)[..0] == [];
    } else {
      var rest, y := s[..|s| - 1], s[|s| - 1];
      TallyCons(f, x, rest);
      assert ([x] + s)[..|s|] == [x] + rest;
      AddToCommutes(TallyBy(f, rest), f(x), f(y));
    }
  }

  lemma {:induction false} TallyInsert(f: Item -> Outcome, x: Item, s: seq<Item>, cmp: (Item, Item) -> int)
    ensures TallyBy(f, Insert(x, s, cmp)) == AddTo(TallyBy(f, s), f(x))
  {
    TallyCons(f, x, s);
    if s == [] {
      assert [x] + s == [x];
    } else if cmp(x, s[0]) > 0 {
      var rest := s[1..];
      TallyInsert(f, x, rest, cmp);
      TallyCons(f, s[0], Insert(x, rest, cmp));
      TallyCons(f, s[0], rest);
      assert s == [s[0]] + rest;
      AddToCommutes(TallyBy(f, rest), f(x), f(s[0]));
    }
  }

  lemma {:induction false} SortedTally(f: Item -> Outcome, s: seq<Item>, cmp: (Item, Item) -> int)
    ensures TallyBy(f, Sort(s, cmp)) == TallyBy(f, s)
  {
    if s != [] {
      SortedTally(f, s[..|s| - 1], cmp);
      TallyInsert(f, s[|s| - 1], Sort(s[..|s| - 1], cmp), cmp);
    }
  }

  lemma HasIdStep(s: seq<Item>, i: nat, id: ItemId)
    requires i < |s|
    ensures HasId(s[..i + 1], id) <==> HasId(s[..i], id) || s[i].id == id
  {
    var t, u := s[..i + 1], s[..i];
    if HasId(u, id) {
      var j :| 0 <= j < |u| && u[j].id == id;
      assert t[j].id == id;
    }
    if s[i].id == id {
      assert t[i].id == id;
    }
    if HasId(t, id) && s[i].id != id {
      var j :| 0 <= j < |t| && t[j].id == id;
      assert u[j].id == id;
    }
  }

  lemma AppliedStep(w: World, before: map<ItemId, Status>, was: map<ItemId, Status>, db: map<ItemId, Status>,
                    s: seq<Item>, i: nat)
    requires i < |s| && DistinctIds(s) && Applied(w, before, was, s[..i])
    requires db == if s[i].id in was then was[s[i].id := StatusAfter(Verdict(w, s[i]), was[s[i].id])] else was
    ensures Applied(w, before, db, s[..i + 1])
  {
    assert !HasId(s[..i], s[i].id);
    forall j | 0 <= j < i + 1 && s[j].id in db
      ensures db[s[j].id] == StatusAfter(Verdict(w, s[j]), before[s[j].id]) {
      if j < i {
        EarlierStays(w, before, was, db, s, i, j);
      }
    }
    forall id | id in db && !HasId(s[..i + 1], id) ensures db[id] == before[id] {
      HasIdStep(s, i, id);
    }
  }

  lemma EarlierStays(w: World, before: map<ItemId, Status>, was: map<ItemId, Status>, db: map<ItemId, Status>,
                     s: seq<Item>, i: nat, j: nat)
    requires j < i < |s| && DistinctIds(s) && Applied(w, before, was, s[..i]) && s[j].id in db
    requires db.Keys == was.Keys && forall id :: id in was && id != s[i].id ==> db[id] == was[id]
    ensures db[s[j].id] == StatusAfter(Verdict(w, s[j]), before[s[j].id])
  {
    assert s[..i][j] == s[j];
    assert s[j].id != s[i].id;
  }

  lemma AppliedElsewhere(w: World, before: map<ItemId, Status>, db: map<ItemId, Status>, s: seq<Item>, items: seq<Item>)
    requires Applied(w, before, db, s) && forall x :: x in items <==> x in s
    ensures Applied(w, before, db, items)
  {
    forall i | 0 <= i < |items| && items[i].id in db
      ensures db[items[i].id] == StatusAfter(Verdict(w, items[i]), before[items[i].id]) {
      assert items[i] in s;
      var j :| 0 <= j < |s| && s[j] == items[i];
    }
    forall id | id in db && !HasId(items, id) ensures db[id] == before[id] {
      IdsIncluded(s, items, id);
    }
  }

  lemma IdsIncluded(a: seq<Item>, b: seq<Item>, id: ItemId)
    requires forall x :: x in a ==> x in b
    ensures HasId(a, id) ==> HasId(b, id)
  {
    if HasId(a, id) {
      var j :| 0 <= j < |a| && a[j].id == id;
      assert a[j] in b;
      var k :| 0 <= k < |b| && b[k] == a[j];
    }
  }

  lemma SameDirs(a: seq<Item>, b: seq<Item>)
    requires forall x :: x in a <==> x in b
    ensures forall d :: DirOfSome(a, d) <==> DirOfSome(b, d)
  {
    forall d ensures DirOfSome(a, d) <==> DirOfSome(b, d) {
      DirsIncluded(a, b, d);
      DirsIncluded(b, a, d);
    }
  }

  lemma DirsIncluded(a: seq<Item>, b: seq<Item>, d: string)
    requires forall x :: x in a ==> x in b
    ensures DirOfSome(a, d) ==> DirOfSome(b, d)
  {
    if DirOfSome(a, d) {
      var i :| 0 <= i < |a| && a[i].recyclePath != "" && DirOf(a[i].recyclePath) == d;
      assert a[i] in b;
      var j :| 0 <= j < |b| && b[j] == a[i];
    }
  }

  lemma DirsStep(s: seq<Item>, i: nat, d: string)
    requires i < |s|
    ensures DirOfSome(s[..i + 1], d)
            <==> DirOfSome(s[..i], d) || (s[i].recyclePath != "" && DirOf(s[i].recyclePath) == d)
  {
    var t, u := s[..i + 1], s[..i];
    assert u == t[..i] && t[i] == s[i];
    if DirOfSome(u, d) {
      var j :| 0 <= j < |u| && u[j].recyclePath != "" && DirOf(u[j].recyclePath) == d;
      assert t[j] == u[j];
    }
    if DirOfSome(t, d) {
      var j :| 0 <= j < |t| && t[j].recyclePath != "" && DirOf(t[j].recyclePath) == d;
      if j < i {
        assert u[j] == t[j];
      }
    }
  }

  lemma SortedRows(w: World, items: seq<Item>)
    requires DistinctIds(items)
    ensures var s := Sort(items, CompareItems);
            SortedBy(s, CompareItems) && DistinctIds(s) && (forall x :: x in items <==> x in s) &&
            Tally(w, s) == Tally(w, items)
  {
    var s := Sort(items, CompareItems);
    CompareItemsIsPreorder();
    SortSorts(items, CompareItems, SortKey);
    SortHas(items, CompareItems);
    DistinctSurvives(items, s);
    SameElements(items, s);
    SortedTally((it: Item) => Verdict(w, it), items, CompareItems);
  }

  lemma Finished(w: World, items: seq<Item>, s: seq<Item>, st: Stats, before: map<ItemId, Status>,
                 db: map<ItemId, Status>, scans: seq<string>, c: Cache)
    requires (forall x :: x in items <==> x in s) && Tally(w, s) == Tally(w, items)
    requires st == Tally(w, s[..|s|]) && Applied(w, before, db, s[..|s|]) && ScansCover(scans, c, s, |s|)
    requires AllWellFormed(s) ==> ScansAscend(scans, c, s, |s|)
    ensures st == Tally(w, items) && Applied(w, before, db, items)
    ensures forall d :: d in scans <==> DirOfSome(items, d)
    ensures AllWellFormed(items) ==> Increasing(scans)
  {
    assert s[..|s|] == s;
    AppliedElsewhere(w, before, db, s, items);
    SameDirs(items, s);
  }

  lemma SkipCovers(scans: seq<string>, c: Cache, s: seq<Item>, i: nat)
    requires i < |s| && s[i].recyclePath == "" && ScansCover(scans, c, s, i)
    ensures ScansCover(scans, c, s, i + 1)
  {
    forall d ensures d in scans <==> DirOfSome(s[..i + 1], d) {
      DirsStep(s, i, d);
    }
  }

  lemma EnterCovers(scans: seq<string>, c: Cache, next: seq<string>, d: Cache, s: seq<Item>, i: nat)
    requires i < |s| && s[i].recyclePath != "" && ScansCover(scans, c, s, i)
    requires d.have && d.dir == DirOf(s[i].recyclePath)
    requires next == if c.have && c.dir == d.dir then scans else scans + [d.dir]
    ensures ScansCover(next, d, s, i + 1)
  {
    forall x ensures x in next <==> DirOfSome(s[..i + 1], x) {
      DirsStep(s, i, x);
    }
  }

  lemma IncreasingSnoc(dirs: seq<string>, d: string)
    requires Increasing(dirs) && (|dirs| > 0 ==> Lex(dirs[|dirs| - 1], d) < 0)
    ensures Increasing(dirs + [d])
  {
    forall a | 0 <= a < |dirs| ensures Lex(dirs[a], d) < 0 {
      if a < |dirs| - 1 {
        LexChain(dirs[a], dirs[|dirs| - 1], d);
      }
    }
  }

  lemma RestIsBelow(s: seq<Item>, i: nat)
    requires i < |s| && SortedBy(s, CompareItems)
    ensures AllBelow(SortKey(s[i]), s, i + 1)
  {
    forall j | i + 1 <= j < |s| && s[j].recyclePath != "" ensures Lex(SortKey(s[i]), SortKey(s[j])) <= 0 {
      assert CompareItems(s[i], s[j]) <= 0;
      CompareItemsIsKeyOrder(s[i], s[j]);
    }
  }

  lemma EnterAscends(scans: seq<string>, c: Cache, next: seq<string>, d: Cache, s: seq<Item>, i: nat)
    requires i < |s| && s[i].recyclePath != "" && AllWellFormed(s) && SortedBy(s, CompareItems)
    requires ScansAscend(scans, c, s, i) && c.have == (|scans| > 0) && (c.have ==> scans[|scans| - 1] == c.dir)
    requires d.have && d.dir == DirOf(s[i].recyclePath)
    requires next == if c.have && c.dir == d.dir then scans else scans + [d.dir]
    ensures ScansAscend(next, d, s, i + 1)
  {
    assert WellFormed(s[i]);
    RestIsBelow(s, i);
    if c.have {
      LexZero(c.dir, d.dir);
    }
    if !c.have || c.dir != d.dir {
      IncreasingSnoc(scans, d.dir);
    }
  }

  lemma EnterScans(scans: seq<string>, c: Cache, next: seq<string>, d: Cache, s: seq<Item>, i: nat)
    requires i < |s| && s[i].recyclePath != "" && SortedBy(s, CompareItems)
    requires ScansCover(scans, c, s, i) && (AllWellFormed(s) ==> ScansAscend(scans, c, s, i))
    requires d.have && d.dir == DirOf(s[i].recyclePath)
    requires next == if c.have && c.dir == d.dir then scans else scans + [d.dir]
    ensures ScansCover(next, d, s, i + 1) && (AllWellFormed(s) ==> ScansAscend(next, d, s, i + 1))
  {
    EnterCovers(scans, c, next, d, s, i);
    if AllWellFormed(s) {
      EnterAscends(scans, c, next, d, s, i);
    }
  }
}
