/**
 The driver's cache of staging directories it need not create again: sixteen fingerprints, looked up
 before a rename, remembered after the directories were created, forgotten when a rename fails. One delete
 at a time.
 */
module StoreCache {
  import opened Common

  type Print = bv32

  /** Names as the driver has them: UTF-16 units. */
  type Text = seq<bv16>

  const SIZE: nat := 16
  const BASIS: Print := 2166136261

  /** A staging area: volume name and SID, each in one case; neither the file system nor the fingerprint
      tells cases apart. */
  datatype Area = Area(volume: Text, sid: Text)

  // ------------------------------------------------------------------ fingerprints

  function Low(u: bv16): bv16 {
    if 0x41 <= u <= 0x5A then u + 0x20 else u
  }

  function Mix(h: Print, u: bv16): Print {
    (h ^ (u as bv32)) * 16777619
  }

  /** RbfHashUnicode: FNV-1a over lower-cased units, in 32 bits. */
  function Hash(s: Text, h: Print): Print {
    if s == [] then h else Mix(Hash(s[..|s| - 1], h), Low(s[|s| - 1]))
  }

  /** RbfStoreFingerprint: zero is kept for empty slots. */
  function Fingerprint(a: Area): (p: Print)
    ensures p != 0
  {
    var h := Hash(a.sid, Hash(a.volume, BASIS));
    if h == 0 then 1 else h
  }

  /** The same unit, or the two cases of one letter. */
  predicate SameLetter(u: bv16, v: bv16) {
    u == v || (0x41 <= u <= 0x5A && v == u + 0x20) || (0x41 <= v <= 0x5A && u == v + 0x20)
  }

  /** The same text but for the case of letters. */
  ghost predicate SameLetters(s: Text, t: Text) {
    |s| == |t| && forall i :: 0 <= i < |s| ==> SameLetter(s[i], t[i])
  }

  lemma LowAgrees(u: bv16, v: bv16)
    ensures Low(u) == Low(v) <==> SameLetter(u, v)
  {
  }

  lemma {:induction false} HashIgnoresCase(s: Text, t: Text, h: Print)
    requires SameLetters(s, t)
    ensures Hash(s, h) == Hash(t, h)
  {
    if s != [] {
      HashIgnoresCase(s[..|s| - 1], t[..|t| - 1], h);
      LowAgrees(s[|s| - 1], t[|t| - 1]);
    }
  }

  lemma FingerprintIgnoresCase(a: Area, b: Area)
    requires SameLetters(a.volume, b.volume) && SameLetters(a.sid, b.sid)
    ensures Fingerprint(a) == Fingerprint(b)
  {
    HashIgnoresCase(a.volume, b.volume, BASIS);
    HashIgnoresCase(a.sid, b.sid, Hash(a.volume, BASIS));
  }

  // ------------------------------------------------------------------ the slots

  type Slots = s: seq<Print> | |s| == SIZE witness seq(SIZE, _ => 0)

  /** RbfStoreCacheRemember from its `i`-th probe on. */
  function Remembered(s: Slots, start: nat, fp: Print, i: nat): Slots
    requires start < SIZE && i <= SIZE
    decreases SIZE - i
  {
    if i == SIZE then s[start := fp]
    else
      var at := (start + i) % SIZE;
      if s[at] == fp then s else if s[at] == 0 then s[at := fp] else Remembered(s, start, fp, i + 1)
  }

  function Forgotten(s: Slots, fp: Print): Slots {
    seq(SIZE, i requires 0 <= i < SIZE => if s[i] == fp then 0 else s[i])
  }

  ghost predicate DiffersAt(s: Slots, t: Slots, k: nat)
    requires k < SIZE
  {
    forall j :: 0 <= j < SIZE && j != k ==> t[j] == s[j]
  }

  /** Remembering puts the fingerprint in and brings no other; it drops at most one. */
  lemma {:induction false} RememberedHolds(s: Slots, start: nat, fp: Print, i: nat)
    requires start < SIZE && i <= SIZE
    ensures fp in Remembered(s, start, fp, i)
    ensures forall p :: p in Remembered(s, start, fp, i) ==> p == fp || p in s
    ensures exists k :: 0 <= k < SIZE && DiffersAt(s, Remembered(s, start, fp, i), k)
    decreases SIZE - i
  {
    var at := (start + i) % SIZE;
    if i == SIZE {
      assert s[start := fp][start] == fp && DiffersAt(s, s[start := fp], start);
    } else if s[at] == fp {
      assert DiffersAt(s, s, at);
    } else if s[at] == 0 {
      assert s[at := fp][at] == fp && DiffersAt(s, s[at := fp], at);
    } else {
      RememberedHolds(s, start, fp, i + 1);
    }
  }

  lemma ForgottenDrops(s: Slots, fp: Print)
    requires fp != 0
    ensures fp !in Forgotten(s, fp)
    ensures forall p :: p != 0 && p != fp ==> (p in Forgotten(s, fp) <==> p in s)
  {
    forall p | p != 0 && p != fp && p in s ensures p in Forgotten(s, fp) {
      var i :| 0 <= i < SIZE && s[i] == p;
      assert Forgotten(s, fp)[i] == p;
    }
  }

  /** Remembers one fingerprint after another, the index moving on by one each time. */
  function RememberAll(s: Slots, next: nat, fps: seq<Print>): Slots {
    if fps == [] then s
    else
      var k := |fps| - 1;
      Remembered(RememberAll(s, next, fps[..k]), SlotAfter(next, k), fps[k], 0)
  }

  /** Where the search starts after `k` more fingerprints. */
  function SlotAfter(next: nat, k: nat): (at: nat)
    ensures at < SIZE
  {
    (next + 1 + k) % SIZE
  }

  lemma {:induction false} FullCacheDropsStart(s: Slots, start: nat, fp: Print, i: nat)
    requires start < SIZE && i <= SIZE && 0 !in s && fp !in s
    ensures Remembered(s, start, fp, i) == s[start := fp]
    decreases SIZE - i
  {
    if i < SIZE {
      FullCacheDropsStart(s, start, fp, i + 1);
    }
  }

  ghost predicate AllNew(s: Slots, fps: seq<Print>) {
    && 0 !in s && 0 !in fps && (forall i :: 0 <= i < |fps| ==> fps[i] !in s)
    && (forall i, k :: 0 <= i < k < |fps| ==> fps[i] != fps[k])
  }

  lemma NewToTheLast(s: Slots, fps: seq<Print>)
    requires AllNew(s, fps) && fps != []
    ensures fps[|fps| - 1] !in s && fps[|fps| - 1] !in fps[..|fps| - 1] && AllNew(s, fps[..|fps| - 1])
  {
    var k := |fps| - 1;
    forall i | 0 <= i < k ensures fps[..k][i] != fps[k] {
      assert fps[..k][i] == fps[i];
    }
    assert 0 !in fps[..k];
  }

  lemma {:induction false} RemembersOnly(s: Slots, next: nat, fps: seq<Print>, p: Print)
    requires AllNew(s, fps) && p in RememberAll(s, next, fps)
    ensures p in s || p in fps
  {
    if fps != [] {
      var k := |fps| - 1;
      var before := RememberAll(s, next, fps[..k]);
      NewToTheLast(s, fps);
      RememberedHolds(before, SlotAfter(next, k), fps[k], 0);
      if p != fps[k] {
        RemembersOnly(s, next, fps[..k], p);
      }
    }
  }

  lemma RememberAllSnoc(s: Slots, next: nat, fps: seq<Print>)
    requires fps != []
    ensures var k := |fps| - 1;
            RememberAll(s, next, fps) == Remembered(RememberAll(s, next, fps[..k]), SlotAfter(next, k), fps[k], 0)
  {
  }

  lemma LastIsNew(s: Slots, next: nat, fps: seq<Print>)
    requires AllNew(s, fps) && fps != []
    ensures var before := RememberAll(s, next, fps[..|fps| - 1]); 0 !in before && fps[|fps| - 1] !in before
  {
    var earlier, last := fps[..|fps| - 1], fps[|fps| - 1];
    NewToTheLast(s, fps);
    var before := RememberAll(s, next, earlier);
    forall p | p in before ensures p != 0 && p != last {
      RemembersOnly(s, next, earlier, p);
    }
  }

  /** The last of the new ones takes the slot whose turn it is. */
  lemma NextSlotTaken(s: Slots, next: nat, fps: seq<Print>)
    requires AllNew(s, fps) && fps != []
    ensures var k := |fps| - 1;
            RememberAll(s, next, fps) == RememberAll(s, next, fps[..k])[SlotAfter(next, k) := fps[k]]
  {
    var k := |fps| - 1;
    var before := RememberAll(s, next, fps[..k]);
    LastIsNew(s, next, fps);
    FullCacheDropsStart(before, SlotAfter(next, k), fps[k], 0);
    RememberAllSnoc(s, next, fps);
  }

  lemma TurnsApart(n: nat, j: nat, k: nat)
    requires j < k < j + 16
    ensures SlotAfter(n, j) != SlotAfter(n, k)
  {
  }

  /** A full cache forgets in turn: a fingerprint that was put in survives the next fifteen new ones. */
  lemma {:induction false} ForgetsInTurn(s: Slots, next: nat, fps: seq<Print>, j: nat)
    requires AllNew(s, fps) && j < |fps| <= 16
    ensures RememberAll(s, next, fps)[SlotAfter(next, j)] == fps[j]
  {
    var k := |fps| - 1;
    NextSlotTaken(s, next, fps);
    if j < k {
      NewToTheLast(s, fps);
      ForgetsInTurn(s, next, fps[..k], j);
      TurnsApart(next, j, k);
    }
  }

  // ------------------------------------------------------------------ one delete

  /** `areas` are the staging areas that exist. */
  datatype State = State(slots: Slots, next: nat, areas: set<Area>)

  datatype Outcome = Staged | NoDirectory | RenameFailed

  function NextOf(n: nat): nat {
    (n + 1) % 0x1_0000_0000
  }

  /** Ensure the directories, rename, forget on failure. The directories can be made when they exist or
      the volume allows it. */
  function Stage(st: State, a: Area, allowed: bool): (State, Outcome) {
    var fp := Fingerprint(a);
    if fp in st.slots then
      if a in st.areas then (st, Staged) else (st.(slots := Forgotten(st.slots, fp)), RenameFailed)
    else if a in st.areas || allowed then
      (State(Remembered(st.slots, NextOf(st.next) % SIZE, fp, 0), NextOf(st.next), st.areas + {a}), Staged)
    else (st, NoDirectory)
  }

  /** What a driver without the cache would answer. */
  function Uncached(st: State, a: Area, allowed: bool): Outcome {
    if a in st.areas || allowed then Staged else NoDirectory
  }

  class Driver {
    const slots: array<Print>
    var next: nat
    var areas: set<Area>

    ghost predicate Valid()
      reads this
    {
      slots.Length == SIZE
    }

    ghost function Value(): State
      reads this, slots
      requires Valid()
    {
      State(slots[..], next, areas)
    }

    constructor (areas: set<Area>)
      ensures Valid() && fresh(slots) && Value() == State(seq(SIZE, _ => 0), 0, areas)
    {
      slots := new Print[SIZE](_ => 0);
      next := 0;
      this.areas := areas;
    }

    method Lookup(fp: Print) returns (found: bool)
      requires Valid()
      ensures found <==> fp in slots[..]
    {
      for i := 0 to SIZE
        invariant forall k :: 0 <= k < i ==> slots[k] != fp
      {
        if slots[i] == fp {
          return true;
        }
      }
      found := false;
    }

    method Remember(fp: Print)
      requires Valid()
      modifies this`next, slots
      ensures Valid() && next == NextOf(old(next))
      ensures slots[..] == Remembered(old(slots[..]), NextOf(old(next)) % SIZE, fp, 0)
    {
      next := (next + 1) % 0x1_0000_0000;
      var start := next % SIZE;
      ghost var s: Slots := slots[..];
      for i := 0 to SIZE
        invariant slots[..] == s
        invariant Remembered(s, start, fp, 0) == Remembered(s, start, fp, i)
      {
        var at := (start + i) % SIZE;
        if slots[at] == fp {
          return;
        }
        if slots[at] == 0 {
          slots[at] := fp;
          return;
        }
      }
      slots[start] := fp;
    }

    method Forget(fp: Print)
      requires Valid()
      modifies slots
      ensures Valid() && slots[..] == Forgotten(old(slots[..]), fp)
    {
      for i := 0 to SIZE
        invariant forall k :: 0 <= k < SIZE ==> slots[k] == if k < i && old(slots[k]) == fp then 0 else old(slots[k])
      {
        if slots[i] == fp {
          slots[i] := 0;
        }
      }
    }

    /** RbfEnsureStoreDir. */
    method EnsureStoreDir(a: Area, allowed: bool) returns (ok: bool)
      requires Valid()
      modifies this, slots
      ensures Valid()
      ensures var st, fp := old(Value()), Fingerprint(a);
              ok == (fp in st.slots || a in st.areas || allowed) &&
              Value() == if fp !in st.slots && ok then Stage(st, a, allowed).0 else st
    {
      var fp := Fingerprint(a);
      var hit := Lookup(fp);
      if hit {
        return true;
      }
      if a !in areas && !allowed {
        return false;
      }
      areas := areas + {a};
      Remember(fp);
      ok := true;
    }

    /** The part of RbfStageDelete around the rename, which succeeds when the directories are there. */
    method StageDelete(a: Area, allowed: bool) returns (r: Outcome)
      requires Valid()
      modifies this, slots
      ensures Valid() && (Value(), r) == Stage(old(Value()), a, allowed)
    {
      var ok := EnsureStoreDir(a, allowed);
      if !ok {
        return NoDirectory;
      }
      if a in areas {
        return Staged;
      }
      Forget(Fingerprint(a));
      r := RenameFailed;
    }
  }

  // ------------------------------------------------------------------ against always creating

  /** The cache changes an outcome at most once: after a rename that failed for it, the retry gets what a
      driver without a cache would answer. */
  lemma OneRetryIsEnough(st: State, a: Area, allowed: bool)
    ensures var (t, r) := Stage(st, a, allowed);
            if r == RenameFailed then Stage(t, a, allowed).1 == Uncached(st, a, allowed) else r == Uncached(st, a, allowed)
  {
    ForgottenDrops(st.slots, Fingerprint(a));
  }

  /** A file is staged only into an area that is there, or made now; a delete that fails makes none. */
  lemma StagedIsThere(st: State, a: Area, allowed: bool)
    ensures var (t, r) := Stage(st, a, allowed);
            && (r == Staged ==> (a in st.areas || allowed) && t.areas == st.areas + {a})
            && (r != Staged ==> a !in st.areas && t.areas == st.areas)
  {
  }

  // ------------------------------------------------------------------ runs of deletes

  /** A delete, on a volume that may allow new directories or not, or staging areas vanishing. */
  datatype Event = Delete(area: Area, allowed: bool) | Vanish(gone: set<Area>)

  function Happens(st: State, e: Event): State {
    match e
    case Delete(a, allowed) => Stage(st, a, allowed).0
    case Vanish(gone) => st.(areas := st.areas - gone)
  }

  function After(st: State, run: seq<Event>): State {
    if run == [] then st else Happens(After(st, run[..|run| - 1]), run[|run| - 1])
  }

  /** Deletes on volumes that allow new directories. */
  function Deletes(areas: seq<Area>): (run: seq<Event>)
    ensures |run| == |areas|
  {
    seq(|areas|, i requires 0 <= i < |areas| => Delete(areas[i], true))
  }

  function Prints(areas: seq<Area>): (fps: seq<Print>)
    ensures |fps| == |areas|
  {
    seq(|areas|, i requires 0 <= i < |areas| => Fingerprint(areas[i]))
  }

  lemma NextInSlots(n: nat, next: nat, k: nat)
    requires NextOf(n) % SIZE == SlotAfter(next, k)
    ensures NextOf(NextOf(n)) % SIZE == SlotAfter(next, k + 1)
  {
    WrapsInSlots(NextOf(n));
  }

  lemma WrapsInSlots(n: nat)
    ensures NextOf(n) % 16 == (n % 16 + 1) % 16
  {
    var x := n + 1;
    var q := x / 0x1_0000_0000;
    assert x == 16 * (0x1000_0000 * q) + NextOf(n);
  }

  lemma LastPrint(areas: seq<Area>)
    requires areas != []
    ensures var k := |areas| - 1;
            Prints(areas)[..k] == Prints(areas[..k]) && Prints(areas)[k] == Fingerprint(areas[k])
  {
  }

  lemma LastDelete(st: State, areas: seq<Area>)
    requires areas != []
    ensures var k := |areas| - 1;
            After(st, Deletes(areas)) == Happens(After(st, Deletes(areas[..k])), Delete(areas[k], true))
  {
    assert Deletes(areas)[..|areas| - 1] == Deletes(areas[..|areas| - 1]);
  }

  ghost predicate InTurn(st: State, areas: seq<Area>) {
    var t := After(st, Deletes(areas));
    t.slots == RememberAll(st.slots, st.next, Prints(areas)) && NextOf(t.next) % SIZE == SlotAfter(st.next, |areas|)
  }

  lemma OneMoreInTurn(st: State, areas: seq<Area>)
    requires areas != [] && AllNew(st.slots, Prints(areas)) && InTurn(st, areas[..|areas| - 1])
    ensures InTurn(st, areas)
  {
    var k, fps := |areas| - 1, Prints(areas);
    var t := After(st, Deletes(areas[..k]));
    LastPrint(areas);
    LastDelete(st, areas);
    LastIsNew(st.slots, st.next, fps);
    RememberAllSnoc(st.slots, st.next, fps);
    NextInSlots(t.next, st.next, k);
  }

  lemma {:induction false} NewAreasInTurn(st: State, areas: seq<Area>)
    requires AllNew(st.slots, Prints(areas))
    ensures InTurn(st, areas)
  {
    if areas == [] {
      WrapsInSlots(st.next);
    } else {
      LastPrint(areas);
      NewToTheLast(st.slots, Prints(areas));
      NewAreasInTurn(st, areas[..|areas| - 1]);
      OneMoreInTurn(st, areas);
    }
  }

  /** So in a run of deletes for sixteen areas new to a full cache, each area's fingerprint is still there at the
      end, in the slots' order from the next one on. */
  lemma RunForgetsInTurn(st: State, areas: seq<Area>, j: nat)
    requires AllNew(st.slots, Prints(areas)) && j < |areas| <= 16
    ensures After(st, Deletes(areas)).slots[SlotAfter(st.next, j)] == Prints(areas)[j]
  {
    NewAreasInTurn(st, areas);
    ForgetsInTurn(st.slots, st.next, Prints(areas), j);
  }

  /** The event is a delete for `a` that the cache makes fail. */
  predicate Fails(st: State, e: Event, a: Area) {
    e.Delete? && e.area == a && Stage(st, a, e.allowed).1 == RenameFailed
  }

  function Failures(st: State, run: seq<Event>, a: Area): nat {
    if run == [] then 0
    else
      Failures(st, run[..|run| - 1], a) + if Fails(After(st, run[..|run| - 1]), run[|run| - 1], a) then 1 else 0
  }

  /** How often the directories of `a` vanish. */
  function Vanishings(run: seq<Event>, a: Area): nat {
    if run == [] then 0
    else Vanishings(run[..|run| - 1], a) + if run[|run| - 1].Vanish? && a in run[|run| - 1].gone then 1 else 0
  }

  /** Event `i` of the run is a delete that made its directories and remembered them under `p`. */
  ghost predicate Creates(st: State, run: seq<Event>, i: nat, p: Print) {
    i < |run| && run[i].Delete? && Fingerprint(run[i].area) == p &&
    p !in After(st, run[..i]).slots && Stage(After(st, run[..i]), run[i].area, run[i].allowed).1 == Staged
  }

  /** In every run a slot holds nothing but what it held at first and fingerprints of areas whose directories
      were made during the run. */
  lemma {:induction false} SlotsComeFromCreation(st: State, run: seq<Event>, p: Print)
    requires p != 0 && p in After(st, run).slots && p !in st.slots
    ensures exists i :: Creates(st, run, i, p)
  {
    assert run != [];
    var last: nat := |run| - 1;
    var before := run[..last];
    if p in After(st, before).slots {
      SlotsComeFromCreation(st, before, p);
      var i: nat :| Creates(st, before, i, p);
      assert run[..i] == before[..i];
      assert Creates(st, run, i, p);
    } else {
      EntersByCreation(After(st, before), run[last], p);
      assert Creates(st, run, last, p);
    }
  }

  lemma EntersByCreation(st: State, e: Event, p: Print)
    requires p != 0 && p in Happens(st, e).slots && p !in st.slots
    ensures e.Delete? && Fingerprint(e.area) == p && Stage(st, e.area, e.allowed).1 == Staged
  {
    if e.Delete? {
      var fp := Fingerprint(e.area);
      if fp in st.slots {
        ForgottenDrops(st.slots, fp);
      } else {
        RememberedHolds(st.slots, NextOf(st.next) % SIZE, fp, 0);
      }
    }
  }

  /** So with a cache that starts empty, every fingerprint in it was put there by a creation. */
  lemma EveryPrintWasCreated(st: State, run: seq<Event>, p: Print)
    requires st.slots == EMPTY.slots && p != 0 && p in After(st, run).slots
    ensures exists i :: Creates(st, run, i, p)
  {
    SlotsComeFromCreation(st, run, p);
  }

  // ------------------------------------------------------------------ how often the cache is wrong

  ghost predicate Injective(areas: set<Area>) {
    forall a, b :: a in areas && b in areas && Fingerprint(a) == Fingerprint(b) ==> a == b
  }

  predicate Stale(st: State, a: Area) {
    Fingerprint(a) in st.slots && a !in st.areas
  }

  /** A delete for another area with another fingerprint does not make `a` stale; one for `a` ends it. */
  lemma StaleOnlyOnce(st: State, a: Area, b: Area, allowed: bool)
    requires Stale(Stage(st, b, allowed).0, a)
    requires a == b || Fingerprint(a) != Fingerprint(b)
    ensures Stale(st, a) && !(a == b && Fingerprint(a) in st.slots)
  {
    var fp := Fingerprint(b);
    if fp in st.slots {
      ForgottenDrops(st.slots, fp);
    } else {
      RememberedHolds(st.slots, NextOf(st.next) % SIZE, fp, 0);
    }
  }

  predicate DeletesWithin(run: seq<Event>, areas: set<Area>) {
    forall i :: 0 <= i < |run| ==> run[i].Delete? ==> run[i].area in areas
  }

  /** Whatever state the cache and the directories are in, an area whose fingerprint is its own suffers at
      most one failed delete, and one more for every time its directories vanish. */
  lemma {:induction false} AtMostOneFailure(st: State, run: seq<Event>, areas: set<Area>, a: Area)
    requires Injective(areas) && a in areas && DeletesWithin(run, areas)
    ensures Failures(st, run, a) + (if Stale(After(st, run), a) then 1 else 0)
            <= (if Stale(st, a) then 1 else 0) + Vanishings(run, a)
  {
    if run != [] {
      var before, e := run[..|run| - 1], run[|run| - 1];
      AtMostOneFailure(st, before, areas, a);
      var u := After(st, before);
      if e.Delete? && Stale(Happens(u, e), a) {
        StaleOnlyOnce(u, a, e.area, e.allowed);
      }
    }
  }

  /** Two areas with one fingerprint, taking turns: `n` rounds of `b` then `a`. */
  function Turns(a: Area, b: Area, n: nat): seq<Event> {
    if n == 0 then [] else Turns(a, b, n - 1) + [Delete(b, true)] + [Delete(a, true)]
  }

  lemma AfterSnoc(st: State, run: seq<Event>, a: Area, e: Event)
    ensures After(st, run + [e]) == Happens(After(st, run), e)
    ensures Failures(st, run + [e], a) == Failures(st, run, a) + if Fails(After(st, run), e, a) then 1 else 0
    ensures Vanishings(run + [e], a) == Vanishings(run, a) + if e.Vanish? && a in e.gone then 1 else 0
  {
    assert (run + [e])[..|run|] == run;
  }

  lemma AfterTurn(st: State, run: seq<Event>, a: Area, b: Area)
    requires a != b
    ensures var v := Stage(After(st, run), b, true).0; var longer := run + [Delete(b, true)] + [Delete(a, true)];
            After(st, longer) == Stage(v, a, true).0 && Vanishings(longer, a) == Vanishings(run, a) &&
            Failures(st, longer, a) == Failures(st, run, a) + if Stage(v, a, true).1 == RenameFailed then 1 else 0
  {
    AfterSnoc(st, run, a, Delete(b, true));
    AfterSnoc(st, run + [Delete(b, true)], a, Delete(a, true));
  }

  lemma OneTurn(u: State, a: Area, b: Area)
    requires a != b && Fingerprint(a) == Fingerprint(b) && a !in u.areas && Fingerprint(a) !in u.slots
    ensures var v := Stage(u, b, true).0;
            Stage(v, a, true).1 == RenameFailed &&
            a !in Stage(v, a, true).0.areas && Fingerprint(a) !in Stage(v, a, true).0.slots
  {
    RememberedHolds(u.slots, NextOf(u.next) % SIZE, Fingerprint(b), 0);
    ForgottenDrops(Stage(u, b, true).0.slots, Fingerprint(a));
  }

  const EMPTY: State := State(seq(SIZE, _ => 0), 0, {})

  lemma StarvedAgain(run: seq<Event>, a: Area, b: Area)
    requires a != b && Fingerprint(a) == Fingerprint(b)
    requires a !in After(EMPTY, run).areas && Fingerprint(a) !in After(EMPTY, run).slots
    ensures var longer := run + [Delete(b, true)] + [Delete(a, true)];
            Failures(EMPTY, longer, a) == Failures(EMPTY, run, a) + 1 && Vanishings(longer, a) == Vanishings(run, a) &&
            a !in After(EMPTY, longer).areas && Fingerprint(a) !in After(EMPTY, longer).slots
  {
    AfterTurn(EMPTY, run, a, b);
    OneTurn(After(EMPTY, run), a, b);
  }

  /** With a shared fingerprint the failures never stop although nothing vanishes: `b` brings it back each
      time `a` has dropped it. */
  lemma {:induction false} SharedPrintStarves(a: Area, b: Area, n: nat)
    requires a != b && Fingerprint(a) == Fingerprint(b)
    ensures Failures(EMPTY, Turns(a, b, n), a) == n && Vanishings(Turns(a, b, n), a) == 0
    ensures var st := After(EMPTY, Turns(a, b, n)); a !in st.areas && Fingerprint(a) !in st.slots
  {
    if n > 0 {
      SharedPrintStarves(a, b, n - 1);
      StarvedAgain(Turns(a, b, n - 1), a, b);
    }
  }

  lemma {:induction false} TurnsWithin(a: Area, b: Area, n: nat)
    ensures DeletesWithin(Turns(a, b, n), {a, b})
  {
    if n > 0 {
      TurnsWithin(a, b, n - 1);
    }
  }

  /** In every run every area fails at most once, and once more for every time its directories vanish. */
  ghost predicate FailsOnce(areas: set<Area>) {
    forall st: State, run: seq<Event>, a: Area :: a in areas && DeletesWithin(run, areas) ==>
      Failures(st, run, a) <= 1 + Vanishings(run, a)
  }

  /** Exactly when the cache costs each area at most one delete per disappearance: no two share a
      fingerprint. */
  lemma FailsOnceIffInjective(areas: set<Area>)
    ensures FailsOnce(areas) <==> Injective(areas)
  {
    if Injective(areas) {
      forall st: State, run: seq<Event>, a: Area | a in areas && DeletesWithin(run, areas)
        ensures Failures(st, run, a) <= 1 + Vanishings(run, a) {
        AtMostOneFailure(st, run, areas, a);
      }
    } else {
      var a, b :| a in areas && b in areas && Fingerprint(a) == Fingerprint(b) && a != b;
      SharedPrintStarves(a, b, 2);
      TurnsWithin(a, b, 2);
      assert Failures(EMPTY, Turns(a, b, 2), a) == 2;
    }
  }

  // ------------------------------------------------------------------ two users who collide

  /** "\Device\Hard" */
  const DEVICE: Text := [0x5c, 0x44, 0x65, 0x76, 0x69, 0x63, 0x65, 0x5c, 0x48, 0x61, 0x72, 0x64]
  /** "diskVolume2" */
  const VOLUME_2: Text := [0x64, 0x69, 0x73, 0x6b, 0x56, 0x6f, 0x6c, 0x75, 0x6d, 0x65, 0x32]
  /** "\S-1-5-21-1" */
  const DOMAIN: Text := [0x5c, 0x53, 0x2d, 0x31, 0x2d, 0x35, 0x2d, 0x32, 0x31, 0x2d, 0x31]
  /** "-2-3-1" */
  const USERS: Text := [0x2d, 0x32, 0x2d, 0x33, 0x2d, 0x31]
  /** "25808" */
  const USER_A: Text := [0x32, 0x35, 0x38, 0x30, 0x38]
  /** "499276" */
  const USER_B: Text := [0x34, 0x39, 0x39, 0x32, 0x37, 0x36]

  const VOLUME: Text := DEVICE + VOLUME_2
  const FIRST: Area := Area(VOLUME, DOMAIN + USERS + USER_A)
  const SECOND: Area := Area(VOLUME, DOMAIN + USERS + USER_B)

  lemma HashSnoc(s: Text, u: bv16, h: Print, before: Print, after: Print)
    requires Hash(s, h) == before && Mix(before, Low(u)) == after
    ensures Hash(s + [u], h) == after
  {
    assert (s + [u])[..|s|] == s;
  }

  lemma {:induction false} HashJoins(s: Text, t: Text, h: Print)
    ensures Hash(s + t, h) == Hash(t, Hash(s, h))
  {
    if t == [] {
      assert s + t == s;
    } else {
      HashJoins(s, t[..|t| - 1], h);
      assert (s + t)[..|s + t| - 1] == s + t[..|t| - 1];
    }
  }

  lemma HashDevice()
    ensures Hash(DEVICE, 0x811c9dc5) == 0x2c867552
  {
    var h: Print := 0x811c9dc5;
    var s: Text := [];
    HashSnoc(s, 0x5c, h, 0x811c9dc5, 0xd90c17db);
    s := s + [0x5c];
    HashSnoc(s, 0x44, h, 0xd90c17db, 0x6d0961ad);
    s := s + [0x44];
    HashSnoc(s, 0x65, h, 0x6d0961ad, 0x6dc4edd8);
    s := s + [0x65];
    HashSnoc(s, 0x76, h, 0x6dc4edd8, 0x7b0228ea);
    s := s + [0x76];
    HashSnoc(s, 0x69, h, 0x7b0228ea, 0x2765c639);
    s := s + [0x69];
    HashSnoc(s, 0x63, h, 0x2765c639, 0x5f373fae);
    s := s + [0x63];
    HashSnoc(s, 0x65, h, 0x5f373fae, 0xaef96c91);
    s := s + [0x65];
    HashSnoc(s, 0x5c, h, 0xaef96c91, 0x3fa646b7);
    s := s + [0x5c];
    HashSnoc(s, 0x48, h, 0x3fa646b7, 0x11c1910d);
    s := s + [0x48];
    HashSnoc(s, 0x61, h, 0x11c1910d, 0x5fb7ed04);
    s := s + [0x61];
    HashSnoc(s, 0x72, h, 0x5fb7ed04, 0x248ad0c2);
    s := s + [0x72];
    HashSnoc(s, 0x64, h, 0x248ad0c2, 0x2c867552);
    s := s + [0x64];
    assert s == DEVICE;
  }

  lemma HashVolume2()
    ensures Hash(VOLUME_2, 0x2c867552) == 0x22b77a29
  {
    var h: Print := 0x2c867552;
    var s: Text := [];
    HashSnoc(s, 0x64, h, 0x2c867552, 0x4daa8402);
    s := s + [0x64];
    HashSnoc(s, 0x69, h, 0x4daa8402, 0xae6e7471);
    s := s + [0x69];
    HashSnoc(s, 0x73, h, 0xae6e7471, 0x99e09f26);
    s := s + [0x73];
    HashSnoc(s, 0x6b, h, 0x99e09f26, 0x899ac637);
    s := s + [0x6b];
    HashSnoc(s, 0x56, h, 0x899ac637, 0xdfa61853);
    s := s + [0x56];
    HashSnoc(s, 0x6f, h, 0xdfa61853, 0x4e782674);
    s := s + [0x6f];
    HashSnoc(s, 0x6c, h, 0x4e782674, 0x9f23f7c8);
    s := s + [0x6c];
    HashSnoc(s, 0x75, h, 0x9f23f7c8, 0x429efe87);
    s := s + [0x75];
    HashSnoc(s, 0x6d, h, 0x429efe87, 0xca4b4a5e);
    s := s + [0x6d];
    HashSnoc(s, 0x65, h, 0xca4b4a5e, 0xaf85dae1);
    s := s + [0x65];
    HashSnoc(s, 0x32, h, 0xaf85dae1, 0x22b77a29);
    s := s + [0x32];
    assert s == VOLUME_2;
  }

  lemma HashDomain()
    ensures Hash(DOMAIN, 0x22b77a29) == 0xeb1c3058
  {
    var h: Print := 0x22b77a29;
    var s: Text := [];
    HashSnoc(s, 0x5c, h, 0x22b77a29, 0x1bd5c62f);
    s := s + [0x5c];
    HashSnoc(s, 0x53, h, 0x1bd5c62f, 0x2d8742d4);
    s := s + [0x53];
    HashSnoc(s, 0x2d, h, 0x2d8742d4, 0xa4ee6dfb);
    s := s + [0x2d];
    HashSnoc(s, 0x31, h, 0xa4ee6dfb, 0x6d56d4fe);
    s := s + [0x31];
    HashSnoc(s, 0x2d, h, 0x6d56d4fe, 0xf2b10829);
    s := s + [0x2d];
    HashSnoc(s, 0x35, h, 0xf2b10829, 0x28afc414);
    s := s + [0x35];
    HashSnoc(s, 0x2d, h, 0x28afc414, 0x45b1e5bb);
    s := s + [0x2d];
    HashSnoc(s, 0x32, h, 0x45b1e5bb, 0x400c56ab);
    s := s + [0x32];
    HashSnoc(s, 0x31, h, 0x400c56ab, 0x6d6c546e);
    s := s + [0x31];
    HashSnoc(s, 0x2d, h, 0x6d6c546e, 0x8488a579);
    s := s + [0x2d];
    HashSnoc(s, 0x31, h, 0x8488a579, 0xeb1c3058);
    s := s + [0x31];
    assert s == DOMAIN;
  }

  lemma HashUsers()
    ensures Hash(USERS, 0xeb1c3058) == 0xafce8d4d
  {
    var h: Print := 0xeb1c3058;
    var s: Text := [];
    HashSnoc(s, 0x2d, h, 0xeb1c3058, 0x9260482f);
    s := s + [0x2d];
    HashSnoc(s, 0x32, h, 0x9260482f, 0x8a9185a7);
    s := s + [0x32];
    HashSnoc(s, 0x2d, h, 0x8a9185a7, 0xad15383e);
    s := s + [0x2d];
    HashSnoc(s, 0x33, h, 0xad15383e, 0x85673c77);
    s := s + [0x33];
    HashSnoc(s, 0x2d, h, 0x85673c77, 0x5b8401ae);
    s := s + [0x2d];
    HashSnoc(s, 0x31, h, 0x5b8401ae, 0xafce8d4d);
    s := s + [0x31];
    assert s == USERS;
  }

  lemma HashUserA()
    ensures Hash(USER_A, 0xafce8d4d) == 0xd3ff7208
  {
    var h: Print := 0xafce8d4d;
    var s: Text := [];
    HashSnoc(s, 0x32, h, 0xafce8d4d, 0x4128beed);
    s := s + [0x32];
    HashSnoc(s, 0x35, h, 0x4128beed, 0x6b246e08);
    s := s + [0x35];
    HashSnoc(s, 0x38, h, 0x6b246e08, 0xda597590);
    s := s + [0x38];
    HashSnoc(s, 0x30, h, 0xda597590, 0x5ad42ae0);
    s := s + [0x30];
    HashSnoc(s, 0x38, h, 0x5ad42ae0, 0xd3ff7208);
    s := s + [0x38];
    assert s == USER_A;
  }

  lemma HashUserB()
    ensures Hash(USER_B, 0xafce8d4d) == 0xd3ff7208
  {
    var h: Print := 0xafce8d4d;
    var s: Text := [];
    HashSnoc(s, 0x34, h, 0xafce8d4d, 0x3b28b57b);
    s := s + [0x34];
    HashSnoc(s, 0x39, h, 0x3b28b57b, 0x631556e6);
    s := s + [0x39];
    HashSnoc(s, 0x39, h, 0x631556e6, 0xd997c10d);
    s := s + [0x39];
    HashSnoc(s, 0x32, h, 0xd997c10d, 0xc8e5362d);
    s := s + [0x32];
    HashSnoc(s, 0x37, h, 0xc8e5362d, 0x5ad42aee);
    s := s + [0x37];
    HashSnoc(s, 0x36, h, 0x5ad42aee, 0xd3ff7208);
    s := s + [0x36];
    assert s == USER_B;
  }

  lemma HashUpToUsers()
    ensures Hash(DOMAIN + USERS, Hash(VOLUME, BASIS)) == 0xafce8d4d
  {
    HashJoins(DEVICE, VOLUME_2, BASIS);
    HashDevice();
    HashVolume2();
    HashJoins(DOMAIN, USERS, 0x22b77a29);
    HashDomain();
    HashUsers();
  }

  /** The staging areas of users S-1-5-21-1-2-3-125808 and S-1-5-21-1-2-3-1499276 on HarddiskVolume2 have one
      fingerprint, ... */
  lemma TwoUsersCollide()
    ensures FIRST != SECOND && Fingerprint(FIRST) == Fingerprint(SECOND) == 0xd3ff7208
  {
    HashUpToUsers();
    HashJoins(DOMAIN + USERS, USER_A, Hash(VOLUME, BASIS));
    HashJoins(DOMAIN + USERS, USER_B, Hash(VOLUME, BASIS));
    HashUserA();
    HashUserB();
    assert |FIRST.sid| != |SECOND.sid|;
  }

  /** ... so when they delete in turn, every delete of the first fails, for ever. */
  lemma TwoUsersStarve(n: nat)
    ensures Failures(EMPTY, Turns(FIRST, SECOND, n), FIRST) == n && Vanishings(Turns(FIRST, SECOND, n), FIRST) == 0
    ensures !FailsOnce({FIRST, SECOND})
  {
    TwoUsersCollide();
    SharedPrintStarves(FIRST, SECOND, n);
    FailsOnceIffInjective({FIRST, SECOND});
  }
}
