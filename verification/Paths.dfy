/**
 Path policy and volume mapping: the driver's protected-prefix test, the service's allow-list for
 restore destinations, and the NT/DOS device map between them. Paths contain no NUL.
 */
module Paths {
  import opened Common

  // ------------------------------------------------------------------ components

  /** The '\'-separated components of a path. */
  function Split(s: string): (r: seq<string>)
    ensures |r| >= 1
    ensures r[0] == "" <==> s == "" || s[0] == '\\'
  {
    if s == "" then [""]
    else
      var rest := Split(s[1..]);
      if s[0] == '\\' then [""] + rest else [[s[0]] + rest[0]] + rest[1..]
  }

  /** `p` is a prefix of `s` that ends where `s` ends or at a '\'. */
  predicate OnBoundary(p: string, s: string) {
    p <= s && (|s| == |p| || s[|p|] == '\\')
  }

  /** A boundary-checked string prefix is a prefix of the component list. */
  lemma {:induction false} BoundaryIsComponents(p: string, s: string)
    ensures OnBoundary(p, s) <==> Split(p) <= Split(s)
  {
    if p != "" && s != "" {
      BoundaryIsComponents(p[1..], s[1..]);
      var r, t := Split(p[1..]), Split(s[1..]);
      if p[0] == s[0] {
        assert OnBoundary(p, s) <==> OnBoundary(p[1..], s[1..]) by {
          assert p == [p[0]] + p[1..] && s == [s[0]] + s[1..];
        }
        if p[0] == '\\' {
          assert Split(p)[1..] == r && Split(s)[1..] == t;
          assert Split(p) <= Split(s) <==> r <= t;
        } else {
          assert Split(p)[0][1..] == r[0] && Split(s)[0][1..] == t[0];
          assert Split(p)[1..] == r[1..] && Split(s)[1..] == t[1..];
          assert r == [r[0]] + r[1..] && t == [t[0]] + t[1..];
          assert Split(p) <= Split(s) <==> r <= t;
        }
      } else {
        assert p[0] != '\\' ==> Split(p)[0][0] == p[0];
        assert s[0] != '\\' ==> Split(s)[0][0] == s[0];
        assert Split(p)[0] != Split(s)[0];
      }
    }
  }

  // ------------------------------------------------------------------ the driver's policy

  /** The prefix's components start the path's, but for the case of letters. */
  ghost predicate Covers(prefix: string, path: string) {
    var ps, ss := Split(prefix), Split(path);
    |ps| <= |ss| && forall i :: 0 <= i < |ps| ==> SameText(ps[i], ss[i])
  }

  lemma {:induction false} SplitFold(s: string)
    ensures |Split(Fold(s))| == |Split(s)|
    ensures forall i :: 0 <= i < |Split(s)| ==> Split(Fold(s))[i] == Fold(Split(s)[i])
  {
    if s != "" {
      SplitFold(s[1..]);
      assert Fold(s)[1..] == Fold(s[1..]);
      if s[0] == '\\' {
        SplitAtSlash(s);
        SplitAtSlash(Fold(s));
      } else {
        SplitInside(s);
        SplitInside(Fold(s));
        FoldCons(s[0], Split(s[1..])[0]);
      }
    }
  }

  lemma SplitAtSlash(s: string)
    requires s != "" && s[0] == '\\'
    ensures Split(s) == [""] + Split(s[1..])
  {
  }

  lemma SplitInside(s: string)
    requires s != "" && s[0] != '\\'
    ensures |Split(s)| == |Split(s[1..])| && Split(s)[0] == [s[0]] + Split(s[1..])[0]
    ensures Split(s)[1..] == Split(s[1..])[1..]
    ensures forall i :: 1 <= i < |Split(s)| ==> Split(s)[i] == Split(s[1..])[i]
  {
  }

  lemma FoldCons(c: char, t: string)
    ensures Fold([c] + t) == [Up(c)] + Fold(t)
  {
  }

  lemma CoversFolded(prefix: string, path: string)
    ensures Covers(prefix, path) <==> Split(Fold(prefix)) <= Split(Fold(path))
  {
    SplitFold(prefix);
    SplitFold(path);
    var ps, ss := Split(prefix), Split(path);
    if |ps| <= |ss| {
      forall i | 0 <= i < |ps| ensures SameText(ps[i], ss[i]) <==> Split(Fold(prefix))[i] == Split(Fold(path))[i] {
        FoldsAgree(ps[i], ss[i]);
      }
    }
  }

  /** Spelling a path in another case changes neither whether it is covered ... */
  lemma CoveredInAnyCase(prefixes: seq<string>, s: string, t: string)
    requires SameText(s, t)
    ensures Covered(prefixes, s) <==> Covered(prefixes, t)
  {
    FoldsAgree(s, t);
    forall i | 0 <= i < |prefixes| ensures Covers(prefixes[i], s) <==> Covers(prefixes[i], t) {
      CoversFolded(prefixes[i], s);
      CoversFolded(prefixes[i], t);
    }
  }

  ghost predicate Covered(prefixes: seq<string>, path: string) {
    exists i :: 0 <= i < |prefixes| && Covers(prefixes[i], path)
  }

  lemma CoversOnBoundary(prefix: string, path: string)
    ensures Covers(prefix, path) <==>
            |prefix| <= |path| && Fold(path)[..|prefix|] == Fold(prefix) &&
            (|path| == |prefix| || path[|prefix|] == '\\')
  {
    CoversFolded(prefix, path);
    BoundaryIsComponents(Fold(prefix), Fold(path));
  }

  /** RbfIsProtected. The stored prefixes are upper case; a path over 256 characters needs a pool
      buffer, and without one the answer is "not protected". */
  method IsProtected(path: string, prefixes: seq<string>, poolOk: bool) returns (matched: bool)
    requires forall i :: 0 <= i < |prefixes| ==> Fold(prefixes[i]) == prefixes[i]
    ensures matched <==> Covered(prefixes, path) && (|path| <= 256 || poolOk)
  {
    if |prefixes| == 0 || (|path| > 256 && !poolOk) {
      return false;
    }
    var up := Fold(path);
    var i := 0;
    while i < |prefixes|
      invariant 0 <= i <= |prefixes|
      invariant forall k :: 0 <= k < i ==> !Covers(prefixes[k], path)
    {
      CoversOnBoundary(prefixes[i], path);
      var plen := |prefixes[i]|;
      if |up| >= plen && up[..plen] == prefixes[i] {
        if |up| == plen || up[plen] == '\\' {
          return true;
        }
      }
      i := i + 1;
    }
    matched := false;
  }

  // ------------------------------------------------------------------ the service's allow-list

  predicate DriveAbsolute(s: string) {
    |s| >= 2 && s[0] != '\\' && s[1] == ':'
  }

  predicate EndsInDots(c: string) {
    |c| >= 2 && c[|c| - 2..] == ".."
  }

  ghost predicate AnyEndsInDots(cs: seq<string>) {
    exists i :: 0 <= i < |cs| && EndsInDots(cs[i])
  }

  /** Some component ends in "..". */
  ghost predicate HasDots(s: string) {
    AnyEndsInDots(Split(s))
  }

  /** The scan for ".." followed by '\' or the end. */
  predicate DotsAt(s: string, i: nat) {
    i + 2 <= |s| && s[i] == '.' && s[i + 1] == '.' && (i + 2 == |s| || s[i + 2] == '\\')
  }

  lemma HeadDots(c: char, r: string)
    ensures EndsInDots([c] + r) <==> EndsInDots(r) || (c == '.' && r == ".")
  {
    var h := [c] + r;
    if |r| >= 2 {
      assert h[|h| - 2..] == r[|r| - 2..];
    } else if |r| == 1 {
      assert h[|h| - 2..] == [c, r[0]];
      assert r == [r[0]];
    }
  }

  lemma AnyCons(h: string, t: seq<string>)
    ensures AnyEndsInDots([h] + t) <==> EndsInDots(h) || AnyEndsInDots(t)
  {
    var cs := [h] + t;
    if i :| 0 <= i < |cs| && EndsInDots(cs[i]) && i > 0 {
      assert EndsInDots(t[i - 1]);
    }
    if i :| 0 <= i < |t| && EndsInDots(t[i]) {
      assert EndsInDots(cs[i + 1]);
    }
    assert cs[0] == h;
  }

  ghost predicate ScanFinds(s: string) {
    exists i: nat :: DotsAt(s, i)
  }

  lemma {:induction false} DotsScan(s: string)
    ensures HasDots(s) <==> ScanFinds(s)
  {
    if s != "" {
      DotsScan(s[1..]);
      DotsLater(s);
      var rest := Split(s[1..]);
      assert rest == [rest[0]] + rest[1..];
      AnyCons(rest[0], rest[1..]);
      if s[0] == '\\' {
        AnyCons("", rest);
      } else {
        AnyCons([s[0]] + rest[0], rest[1..]);
        HeadDots(s[0], rest[0]);
        FirstIsDot(s[1..]);
      }
    }
  }

  lemma DotsLater(s: string)
    requires s != ""
    ensures ScanFinds(s) <==> DotsAt(s, 0) || ScanFinds(s[1..])
  {
    if i: nat :| DotsAt(s, i) && i > 0 {
      assert DotsAt(s[1..], i - 1);
    }
    if i: nat :| DotsAt(s[1..], i) {
      assert DotsAt(s, i + 1);
    }
  }

  lemma FirstIsDot(s: string)
    ensures Split(s)[0] == "." <==> s != "" && s[0] == '.' && (|s| == 1 || s[1] == '\\')
  {
    if s != "" {
      assert Split(s[1..])[0] == "" <==> s[1..] == "" || s[1..][0] == '\\';
    }
  }

  /** The destinations the service accepts: drive-absolute, no component ending in "..", and under a
      non-empty configured prefix. */
  ghost predicate Allowed(prefixes: seq<string>, dst: string) {
    && DriveAbsolute(dst) && !HasDots(dst)
    && exists i :: 0 <= i < |prefixes| && prefixes[i] != "" && Covers(prefixes[i], dst)
  }

  /** Device, network and relative paths are refused, whatever the shares. */
  lemma OnlyDrivesAreAllowed(prefixes: seq<string>, dst: string)
    requires "\\" <= dst || |dst| < 2 || dst[1] != ':'
    ensures !Allowed(prefixes, dst)
  {
  }

  /** ... nor whether it is an allowed destination. */
  lemma AllowedInAnyCase(prefixes: seq<string>, s: string, t: string)
    requires SameText(s, t)
    ensures Allowed(prefixes, s) <==> Allowed(prefixes, t)
  {
    DotsInAnyCase(s, t);
    FoldsAgree(s, t);
    forall i | 0 <= i < |prefixes| ensures Covers(prefixes[i], s) <==> Covers(prefixes[i], t) {
      CoversFolded(prefixes[i], s);
      CoversFolded(prefixes[i], t);
    }
  }

  lemma DotsInAnyCase(s: string, t: string)
    requires SameText(s, t)
    ensures HasDots(s) <==> HasDots(t)
  {
    DotsScan(s);
    DotsScan(t);
    forall i: nat ensures DotsAt(s, i) <==> DotsAt(t, i) {
    }
  }

  method RejectsDots(dst: string) returns (found: bool)
    ensures found <==> HasDots(dst)
  {
    DotsScan(dst);
    var p := 0;
    while p < |dst|
      invariant 0 <= p <= |dst|
      invariant forall i :: 0 <= i < p ==> !DotsAt(dst, i)
    {
      if dst[p] == '.' && p + 1 < |dst| && dst[p + 1] == '.' && (p + 2 == |dst| || dst[p + 2] == '\\') {
        assert DotsAt(dst, p);
        return true;
      }
      p := p + 1;
    }
    found := false;
  }

  method UnderShare(dst: string, prefixes: seq<string>) returns (ok: bool)
    ensures ok <==> exists i :: 0 <= i < |prefixes| && prefixes[i] != "" && Covers(prefixes[i], dst)
  {
    var folded := Fold(dst);
    var i := 0;
    while i < |prefixes|
      invariant 0 <= i <= |prefixes|
      invariant forall k :: 0 <= k < i ==> prefixes[k] == "" || !Covers(prefixes[k], dst)
    {
      var plen := |prefixes[i]|;
      CoversOnBoundary(prefixes[i], dst);
      if plen != 0 && |dst| >= plen && folded[..plen] == Fold(prefixes[i]) {
        if |dst| == plen || dst[plen] == '\\' {
          return true;
        }
      }
      i := i + 1;
    }
    ok := false;
  }

  /** DestIsAllowed. */
  method DestIsAllowed(dst: string, prefixes: seq<string>) returns (ok: bool)
    ensures ok <==> Allowed(prefixes, dst)
  {
    if |dst| == 0 || dst[0] == '\\' || |dst| < 2 || dst[1] != ':' {
      return false;
    }
    var dots := RejectsDots(dst);
    if dots {
      return false;
    }
    ok := UnderShare(dst, prefixes);
  }

  // ------------------------------------------------------------------ volumes

  /** One entry of the volume map: a device name and its drive letter. */
  datatype Volume = Volume(device: string, drive: char)

  /** What VolInit builds, plus the assumptions on the machine: device names are non-empty and none
      equals another or extends it at a '\'. */
  ghost predicate GoodMap(vols: seq<Volume>) {
    && (forall i :: 0 <= i < |vols| ==> 'A' <= vols[i].drive <= 'Z' && vols[i].device != "")
    && (forall i, j :: 0 <= i < |vols| && 0 <= j < |vols| && i != j ==>
          vols[i].drive != vols[j].drive && !OnBoundary(Fold(vols[i].device), Fold(vols[j].device)))
  }

  /** The first volume with the path's drive letter. */
  function DriveIndex(vols: seq<Volume>, dos: string): (r: Option<nat>)
    ensures r.Some? ==> r.value < |vols| && |dos| >= 2 && Up(dos[0]) == Up(vols[r.value].drive)
  {
    if |dos| < 2 || vols == [] then None
    else if Up(dos[0]) == Up(vols[0].drive) then Some(0)
    else
      var r := DriveIndex(vols[1..], dos);
      if r.None? then None else Some(r.value + 1)
  }

  function DosToNt(vols: seq<Volume>, dos: string): Option<string> {
    if |dos| < 2 || dos[1] != ':' then None
    else
      var r := DriveIndex(vols, dos);
      if r.None? then None else Some(vols[r.value].device + dos[2..])
  }

  /** VolDosToNt. */
  method VolDosToNt(vols: seq<Volume>, dos: string) returns (nt: Option<string>)
    ensures nt == DosToNt(vols, dos)
  {
    if |dos| < 2 || dos[1] != ':' {
      return None;
    }
    var i := 0;
    while i < |vols|
      invariant 0 <= i <= |vols|
      invariant DriveIndex(vols, dos) ==
                (var r := DriveIndex(vols[i..], dos); if r.None? then None else Some(r.value + i))
    {
      if Up(dos[0]) == Up(vols[i].drive) {
        return Some(vols[i].device + dos[2..]);
      }
      assert vols[i..][1..] == vols[i + 1..];
      i := i + 1;
    }
    nt := None;
  }

  predicate Matches(v: Volume, nt: string) {
    Fold(v.device) <= Fold(nt)
  }

  /** `b` is the volume VolNtToDos picks: the longest matching device, the first one of that length. */
  ghost predicate IsBest(vols: seq<Volume>, nt: string, b: int) {
    && 0 <= b < |vols| && Matches(vols[b], nt) && vols[b].device != ""
    && forall j :: 0 <= j < |vols| && Matches(vols[j], nt) ==>
         |vols[j].device| <= |vols[b].device| && (j < b ==> |vols[j].device| < |vols[b].device|)
  }

  /** The DOS path for `nt` on volume `v`: any run of '\' after the device becomes one. */
  function OnDrive(v: Volume, nt: string): string
    requires |v.device| <= |nt|
  {
    [v.drive] + ":\\" + StripSlashes(nt[|v.device|..])
  }

  method SkipSlashes(nt: string, from: nat) returns (p: nat)
    requires from <= |nt|
    ensures p <= |nt| && nt[p..] == StripSlashes(nt[from..])
  {
    p := from;
    while p < |nt| && nt[p] == '\\'
      invariant from <= p <= |nt|
      invariant StripSlashes(nt[from..]) == StripSlashes(nt[p..])
    {
      assert nt[p..][1..] == nt[p + 1..];
      p := p + 1;
    }
  }

  /** VolNtToDos. */
  method VolNtToDos(vols: seq<Volume>, nt: string) returns (dos: Option<string>)
    ensures dos.None? ==> nt == "" || forall j :: 0 <= j < |vols| && Matches(vols[j], nt) ==> vols[j].device == ""
    ensures dos.Some? ==>
              exists b :: IsBest(vols, nt, b) && dos.value == OnDrive(vols[b], nt)
  {
    if nt == "" {
      return None;
    }
    var best, bestLen, i := -1, 0, 0;
    while i < |vols|
      invariant 0 <= i <= |vols|
      invariant best < 0 ==> bestLen == 0
      invariant best >= 0 ==> best < i && Matches(vols[best], nt) && bestLen == |vols[best].device| > 0
      invariant forall j :: 0 <= j < i && Matches(vols[j], nt) ==>
                  |vols[j].device| <= bestLen && (j < best ==> |vols[j].device| < bestLen)
    {
      if |nt| >= |vols[i].device| && Fold(nt)[..|vols[i].device|] == Fold(vols[i].device) {
        if |vols[i].device| > bestLen {
          bestLen := |vols[i].device|;
          best := i;
        }
      }
      i := i + 1;
    }
    if best < 0 {
      return None;
    }
    assert IsBest(vols, nt, best);
    var p := SkipSlashes(nt, bestLen);
    dos := Some([vols[best].drive] + ":\\" + nt[p..]);
  }

  lemma BestIsUnique(vols: seq<Volume>, nt: string, a: int, b: int)
    requires IsBest(vols, nt, a) && IsBest(vols, nt, b)
    ensures a == b
  {
  }

  /** A path that continues a mapped device at a '\' belongs to that device. */
  lemma BestOnBoundary(vols: seq<Volume>, nt: string, i: nat)
    requires GoodMap(vols) && i < |vols| && OnBoundary(Fold(vols[i].device), Fold(nt))
    ensures IsBest(vols, nt, i)
  {
    forall j | 0 <= j < |vols| && Matches(vols[j], nt) && j != i
      ensures |vols[j].device| < |vols[i].device|
    {
      var di, dj := Fold(vols[i].device), Fold(vols[j].device);
      if |di| <= |dj| {
        assert di <= dj;
        if |di| < |dj| {
          assert dj[|di|] == Fold(nt)[|di|];
        }
        assert OnBoundary(di, dj);
      }
    }
  }

  lemma {:induction false} DriveIndexOf(vols: seq<Volume>, dos: string, i: nat)
    requires i < |vols| && |dos| >= 2 && Up(dos[0]) == vols[i].drive
    requires forall k :: 0 <= k < |vols| ==> 'A' <= vols[k].drive <= 'Z'
    requires forall j, k :: 0 <= j < k < |vols| ==> vols[j].drive != vols[k].drive
    ensures DriveIndex(vols, dos) == Some(i)
  {
    if i > 0 {
      DriveIndexOf(vols[1..], dos, i - 1);
    }
  }

  /** The first volume with the path's drive letter; with none there is no NT form. */
  lemma {:induction false} DriveIndexIs(vols: seq<Volume>, dos: string)
    requires |dos| >= 2
    ensures DriveIndex(vols, dos).None? ==> forall j :: 0 <= j < |vols| ==> Up(vols[j].drive) != Up(dos[0])
    ensures DriveIndex(vols, dos).Some? ==>
              var i := DriveIndex(vols, dos).value;
              Up(vols[i].drive) == Up(dos[0]) && forall j :: 0 <= j < i ==> Up(vols[j].drive) != Up(dos[0])
  {
    if vols != [] && Up(dos[0]) != Up(vols[0].drive) {
      DriveIndexIs(vols[1..], dos);
    }
  }

  /** Canonical DOS form: upper-case drive letter, one '\' after the colon. */
  predicate Canonical(dos: string) {
    |dos| >= 3 && 'A' <= dos[0] <= 'Z' && dos[1] == ':' && dos[2] == '\\' && (|dos| == 3 || dos[3] != '\\')
  }

  /** On a good map, mapping a path to NT form and back gives it back exactly when it is canonical. */
  lemma VolumeRoundTrip(vols: seq<Volume>, dos: string, nt: string)
    requires GoodMap(vols) && DosToNt(vols, dos) == Some(nt)
    ensures (exists b :: IsBest(vols, nt, b) && OnDrive(vols[b], nt) == dos) <==> Canonical(dos)
  {
    var i := DriveIndex(vols, dos).value;
    var dev := vols[i].device;
    FoldConcat(dev, dos[2..]);
    assert nt[|dev|..] == dos[2..];
    if Canonical(dos) {
      BestOnBoundary(vols, nt, i);
      assert dos[2..][1..] == dos[3..];
      assert StripSlashes(dos[2..]) == dos[3..];
      assert OnDrive(vols[i], nt) == dos;
    }
    if b :| IsBest(vols, nt, b) && OnDrive(vols[b], nt) == dos {
      assert dos[3..] == StripSlashes(nt[|vols[b].device|..]);
      assert |dos| > 3 ==> dos[3] == dos[3..][0];
    }
  }

  /** Exactly when a path that is mapped at all is mapped to a volume it is on: when some mapped volume has
      it, since without a boundary check a path on no mapped volume can still match a device's name. */
  lemma MappedToItsOwnVolume(vols: seq<Volume>, nt: string, b: int)
    requires GoodMap(vols) && IsBest(vols, nt, b)
    ensures OnBoundary(Fold(vols[b].device), Fold(nt))
            <==> exists i :: 0 <= i < |vols| && OnBoundary(Fold(vols[i].device), Fold(nt))
  {
    if i :| 0 <= i < |vols| && OnBoundary(Fold(vols[i].device), Fold(nt)) {
      BestOnBoundary(vols, nt, i);
      BestIsUnique(vols, nt, i, b);
    }
  }

  /** So a path on an unmapped volume whose device name extends a mapped one lands on the mapped drive,
      under a directory that never existed. */
  lemma UnmappedVolumeIsConfused()
    ensures var vols := [Volume("\\Device\\HarddiskVolume1", 'C')];
            var nt := "\\Device\\HarddiskVolume12\\a";
            GoodMap(vols) && IsBest(vols, nt, 0) && OnDrive(vols[0], nt) == "C:\\2\\a"
  {
    var vols := [Volume("\\Device\\HarddiskVolume1", 'C')];
    var nt := "\\Device\\HarddiskVolume12\\a";
    assert vols[0].device <= nt;
    assert Fold(nt)[..23] == Fold(vols[0].device);
    assert nt[23..] == "2\\a";
  }

  // ------------------------------------------------------------------ intercepted implies restorable

  /** A usable share prefix: a drive letter in either case, alone or with a path after one '\' that does not
      end in '\'. */
  predicate SharePrefix(p: string) {
    |p| >= 2 && 'A' <= Up(p[0]) <= 'Z' && p[1] == ':' &&
    (|p| == 2 || (|p| > 3 && p[2] == '\\' && p[3] != '\\' && p[|p| - 1] != '\\'))
  }

  /** When the driver's prefixes are the NT images of the service's, any path the driver protects maps
      to a destination the service accepts, unless one of its components ends in "..". */
  lemma InterceptedIsRestorable(vols: seq<Volume>, shares: seq<string>, ntPrefixes: seq<string>, nt: string)
    requires GoodMap(vols) && |shares| == |ntPrefixes|
    requires forall i :: 0 <= i < |shares| ==>
               SharePrefix(shares[i]) && DosToNt(vols, shares[i]) == Some(ntPrefixes[i])
    requires Covered(ntPrefixes, nt)
    ensures exists b :: IsBest(vols, nt, b) &&
                        (Allowed(shares, OnDrive(vols[b], nt)) <==> !HasDots(OnDrive(vols[b], nt)))
  {
    var k :| 0 <= k < |ntPrefixes| && Covers(ntPrefixes[k], nt);
    CoversFolded(ntPrefixes[k], nt);
    BoundaryIsComponents(Fold(ntPrefixes[k]), Fold(nt));
    var b := ShareCarriesOver(vols, shares[k], ntPrefixes[k], nt);
    AllowedUnlessDotted(shares, OnDrive(vols[b], nt), k);
  }

  lemma AllowedUnlessDotted(shares: seq<string>, dst: string, k: nat)
    requires k < |shares| && shares[k] != "" && Covers(shares[k], dst) && DriveAbsolute(dst)
    ensures Allowed(shares, dst) <==> !HasDots(dst)
  {
  }

  lemma ShareCarriesOver(vols: seq<Volume>, share: string, ntPrefix: string, nt: string) returns (b: nat)
    requires GoodMap(vols) && SharePrefix(share) && DosToNt(vols, share) == Some(ntPrefix)
    requires OnBoundary(Fold(ntPrefix), Fold(nt))
    ensures IsBest(vols, nt, b) && Covers(share, OnDrive(vols[b], nt))
  {
    b := DriveIndex(vols, share).value;
    DevicePrefix(vols[b].device, share[2..], nt);
    BestOnBoundary(vols, nt, b);
    SameTail(vols[b], share, nt);
    BoundaryIsComponents(Fold(share), Fold(OnDrive(vols[b], nt)));
    CoversFolded(share, OnDrive(vols[b], nt));
  }

  lemma DevicePrefix(dev: string, rest: string, nt: string)
    requires OnBoundary(Fold(dev + rest), Fold(nt)) && (rest == "" || rest[0] == '\\')
    ensures OnBoundary(Fold(dev), Fold(nt))
  {
    FoldConcat(dev, rest);
    assert Fold(dev) == Fold(nt)[..|dev|];
    if rest != "" {
      assert Fold(nt)[|dev|] == (Fold(dev) + Fold(rest))[|dev|] == Fold(rest)[0];
    } else {
      assert dev + rest == dev;
    }
  }

  lemma TailOnBoundary(dev: string, rest: string, nt: string)
    requires OnBoundary(Fold(dev + rest), Fold(nt))
    ensures |dev| <= |nt| && OnBoundary(Fold(rest), Fold(nt[|dev|..]))
  {
    FoldConcat(dev, rest);
    FoldSlice(nt, |dev|, |nt|);
    assert Fold(rest) == Fold(dev + rest)[|dev|..];
    assert Fold(dev + rest) == Fold(nt)[..|dev| + |rest|];
  }

  lemma BoundaryAfter(h: string, b: string, c: string)
    requires OnBoundary(b, c)
    ensures OnBoundary(h + b, h + c)
  {
    assert h + c == (h + b) + c[|b|..];
  }

  lemma OnlySlashFolds(c: char, d: char)
    requires Up(c) == Up(d)
    ensures c == '\\' <==> d == '\\'
  {
  }

  lemma OneSlash(rest: string, tail: string)
    requires |rest| >= 2 && rest[0] == '\\' && rest[1] != '\\' && Fold(rest) <= Fold(tail)
    ensures tail[0] == '\\' && StripSlashes(tail) == tail[1..]
  {
    assert Fold(tail)[0] == Fold(rest)[0] && Fold(tail)[1] == Fold(rest)[1];
    OnlySlashFolds(tail[0], rest[0]);
    OnlySlashFolds(tail[1], rest[1]);
    var after := tail[1..];
    assert after[0] == tail[1] && StripSlashes(after) == after;
  }

  lemma SameTail(v: Volume, share: string, nt: string)
    requires SharePrefix(share) && Up(share[0]) == v.drive
    requires OnBoundary(Fold(v.device + share[2..]), Fold(nt))
    ensures |v.device| <= |nt| && OnBoundary(Fold(share), Fold(OnDrive(v, nt)))
  {
    var head, rest := [v.drive, ':'], share[2..];
    TailOnBoundary(v.device, rest, nt);
    assert share == share[..2] + rest;
    FoldConcat(share[..2], rest);
    assert Fold(share[..2]) == head && Fold(head) == head;
    DriveTail(v, rest, nt);
  }

  lemma DriveTail(v: Volume, rest: string, nt: string)
    requires Up(v.drive) == v.drive && |v.device| <= |nt|
    requires rest == "" || (|rest| >= 2 && rest[0] == '\\' && rest[1] != '\\')
    requires OnBoundary(Fold(rest), Fold(nt[|v.device|..]))
    ensures OnBoundary([v.drive, ':'] + Fold(rest), Fold(OnDrive(v, nt)))
  {
    var head, tail := [v.drive, ':'], nt[|v.device|..];
    var after := if rest == "" then "\\" + StripSlashes(tail) else tail;
    if rest != "" {
      OneSlash(rest, tail);
    }
    assert OnDrive(v, nt) == head + after;
    FoldConcat(head, after);
    assert Fold(head) == head;
    BoundaryAfter(head, Fold(rest), Fold(after));
  }
}
