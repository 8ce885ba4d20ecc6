/**
 Names of staged files: RbfBuildStorePath over its buffers, and what its names allow a reader to recover.
 Paths are NT paths of at most 32767 units; the sequence number is a 64-bit counter that starts over at
 every load.
 */
module StagingNames {
  import opened Common
  import opened Numerals
  import Paths

  // ------------------------------------------------------------------ the parts of a path

  /** Position of the `k`-th '\' at or after `from`, or the length. */
  function NthSlash(p: string, from: nat, k: nat): (r: nat)
    requires from <= |p| && k > 0
    ensures from <= r <= |p| && (r < |p| ==> p[r] == '\\')
    decreases |p| - from
  {
    if from == |p| then from
    else if p[from] != '\\' then NthSlash(p, from + 1, k)
    else if k == 1 then from
    else NthSlash(p, from + 1, k - 1)
  }

  /** \Device\HarddiskVolumeN. */
  function VolumeOf(p: string): string {
    p[..NthSlash(p, 0, 3)]
  }

  predicate OnVolume(p: string) {
    0 < NthSlash(p, 0, 3) < |p|
  }

  /** The last component; for a path that ends in '\', everything after the volume. */
  function BaseOf(p: string): string
    requires OnVolume(p)
  {
    if p[|p| - 1] == '\\' then p[NthSlash(p, 0, 3)..] else BaseName(p)
  }

  /** `b` is what the source's name ends in: the text after its last '\', or, for a source that ends in
      '\', everything after the volume. */
  ghost predicate IsBase(src: string, b: string)
    requires OnVolume(src)
  {
    if src[|src| - 1] == '\\' then src == VolumeOf(src) + b
    else '\\' !in b && src == Parent(src) + "\\" + b
  }

  lemma BaseIs(src: string)
    requires OnVolume(src)
    ensures IsBase(src, BaseOf(src))
  {
    PathSplits(src);
    assert src[NthSlash(src, 0, 3)] == '\\';
  }

  lemma {:induction false} NthSlashShifts(p: string, from: nat, k: nat)
    requires from < |p| && k > 0
    ensures NthSlash(p, from + 1, k) == 1 + NthSlash(p[1..], from, k)
    decreases |p| - from
  {
    if from + 1 < |p| {
      NthSlashShifts(p, from + 1, k);
      if k > 1 {
        NthSlashShifts(p, from + 1, k - 1);
      }
    }
  }

  lemma CutAfterFirst(p: string, r: nat, k: nat)
    requires 0 < r <= |p| && 0 < k < |Paths.Split(p)|
    requires var j := if p[0] == '\\' then k - 1 else k;
             Paths.Split(p[1..][..r - 1]) == Paths.Split(p[1..])[..j]
    ensures Paths.Split(p[..r]) == Paths.Split(p)[..k]
  {
    assert p[..r][1..] == p[1..][..r - 1] && p[..r][0] == p[0];
  }

  lemma SplitShifts(p: string)
    requires p != ""
    ensures |Paths.Split(p)| == |Paths.Split(p[1..])| + if p[0] == '\\' then 1 else 0
  {
  }

  /** The `k`-th '\' ends the first `k` components; a path with fewer has none. */
  lemma {:induction false} NthSlashCuts(p: string, k: nat)
    requires k > 0
    ensures NthSlash(p, 0, k) < |p| <==> |Paths.Split(p)| > k
    ensures NthSlash(p, 0, k) < |p| ==> Paths.Split(p[..NthSlash(p, 0, k)]) == Paths.Split(p)[..k]
  {
    if p != "" {
      var j := if p[0] == '\\' then k - 1 else k;
      SplitShifts(p);
      if j > 0 {
        NthSlashShifts(p, 0, j);
        NthSlashCuts(p[1..], j);
        if NthSlash(p, 0, k) < |p| {
          CutAfterFirst(p, NthSlash(p, 0, k), k);
        }
      } else {
        LeadingSlash(p);
      }
    }
  }

  lemma LeadingSlash(p: string)
    requires p != "" && p[0] == '\\'
    ensures NthSlash(p, 0, 1) == 0 && |Paths.Split(p)| > 1 && Paths.Split(p[..0]) == Paths.Split(p)[..1]
  {
    Paths.SplitAtSlash(p);
  }

  /** A source with at least four components is on a volume, which is its first three. */
  lemma VolumeIs(src: string)
    ensures OnVolume(src) <==> |Paths.Split(src)| >= 4
    ensures OnVolume(src) ==> Paths.Split(VolumeOf(src)) == Paths.Split(src)[..3] && VolumeOf(src) + "\\" <= src
  {
    NthSlashCuts(src, 3);
    if OnVolume(src) {
      var r := NthSlash(src, 0, 3);
      assert src[..r + 1] == src[..r] + "\\";
    }
  }

  function StoreName(sid: string, n: nat, base: string): string {
    "\\RBStore" + (sid + ("\\" + (Numeral(n, Decimal) + ("_" + base))))
  }

  function StorePath(sid: string, src: string, n: nat): string
    requires OnVolume(src)
  {
    VolumeOf(src) + StoreName(sid, n, BaseOf(src))
  }

  // ------------------------------------------------------------------ the driver's code

  method FindVolumeEnd(src: string) returns (volLen: nat)
    ensures volLen == NthSlash(src, 0, 3)
  {
    var i, slashes := 0, 0;
    while i < |src|
      invariant 0 <= i <= |src| && 0 <= slashes < 3
      invariant NthSlash(src, 0, 3) == NthSlash(src, i, 3 - slashes)
    {
      if src[i] == '\\' {
        slashes := slashes + 1;
        if slashes == 3 {
          return i;
        }
      }
      i := i + 1;
    }
    volLen := i;
  }

  method FindBase(src: string, volLen: nat) returns (baseStart: nat)
    requires OnVolume(src) && volLen == NthSlash(src, 0, 3)
    ensures baseStart <= |src| && src[baseStart..] == BaseOf(src)
  {
    baseStart := volLen;
    var i := volLen;
    while i < |src|
      invariant volLen <= i <= |src|
      invariant i == volLen ==> baseStart == volLen
      invariant i > volLen ==> volLen < baseStart <= i && src[baseStart - 1] == '\\'
      invariant forall k :: baseStart <= k < i && k > volLen ==> src[k] != '\\'
    {
      if src[i] == '\\' {
        baseStart := i + 1;
      }
      i := i + 1;
    }
    assert LastSlash(src) == baseStart - 1;
    if baseStart >= |src| {
      baseStart := volLen;
    }
  }

  /** The buffer "\<seq>_". */
  method PrintSeq(n: nat, buf: array<char>) returns (len: nat)
    requires n < U64 && buf.Length >= 64
    modifies buf
    ensures len < 64 && buf[..len] == "\\" + Numeral(n, Decimal) + "_"
  {
    SeqDigits(n);
    buf[0] := '\\';
    var tmp := new char[32];
    var k := LowDigitsFirst(n, Decimal, tmp);
    CopyReversed(tmp, k, buf, 1);
    assert buf[..1 + k] == "\\" + Numeral(n, Decimal);
    buf[1 + k] := '_';
    buf[2 + k] := 0 as char;
    len := 2 + k;
    assert buf[..1 + k] == "\\" + Numeral(n, Decimal);
  }

  lemma SeqDigits(n: nat)
    requires n < U64
    ensures |Numeral(n, Decimal)| <= 20
  {
    assert Pow(Decimal, 20) == 100000000000000000000 by {
      assert Pow(Decimal, 10) == 10000000000;
    }
    NumeralLength(n, Decimal, 20);
  }

  /** RtlAppendUnicodeStringToString. */
  method Append(buf: array<char>, len: nat, s: string) returns (ok: bool, next: nat)
    requires len <= buf.Length
    modifies buf
    ensures ok <==> len + |s| <= buf.Length
    ensures ok ==> next == len + |s| && buf[..next] == old(buf[..len]) + s
    ensures !ok ==> next == len && buf[..] == old(buf[..])
  {
    if len + |s| > buf.Length {
      return false, len;
    }
    var i := 0;
    while i < |s|
      invariant 0 <= i <= |s|
      invariant buf[..len + i] == old(buf[..len]) + s[..i]
    {
      buf[len + i] := s[i];
      i := i + 1;
    }
    return true, len + |s|;
  }

  datatype Built = Path(path: string) | InvalidParameter | TooLong | NoMemory

  /** RbfBuildStorePath for the sequence number it draws. */
  method BuildStorePath(sid: string, src: string, n: nat, poolOk: bool) returns (r: Built)
    requires n < U64
    ensures r == if !poolOk then NoMemory else if !OnVolume(src) then InvalidParameter
                 else if |StorePath(sid, src, n)| <= MAX_PATH then Path(StorePath(sid, src, n)) else TooLong
    ensures r.Path? ==> |r.path| <= 1024 && OnVolume(src) && IsBase(src, BaseOf(src))
    ensures r.Path? ==> r.path == VolumeOf(src) + "\\RBStore" + sid + ("\\" + Numeral(n, Decimal) + "_") + BaseOf(src)
  {
    BaseWhenOnVolume(src);
    if !poolOk {
      return NoMemory;
    }
    var volLen := FindVolumeEnd(src);
    if volLen == 0 || volLen >= |src| {
      return InvalidParameter;
    }
    var base := FindBase(src, volLen);
    var seqBuf := new char[64];
    var k := PrintSeq(n, seqBuf);
    assert src[..volLen] == VolumeOf(src);
    PathInParts(sid, src, n);
    r := Assemble(src[..volLen], "\\RBStore", sid, seqBuf[..k], src[base..]);
  }

  lemma BaseWhenOnVolume(src: string)
    ensures OnVolume(src) ==> IsBase(src, BaseOf(src))
  {
    if OnVolume(src) {
      BaseIs(src);
    }
  }

  lemma PathInParts(sid: string, src: string, n: nat)
    requires OnVolume(src)
    ensures StorePath(sid, src, n) == VolumeOf(src) + "\\RBStore" + sid + ("\\" + Numeral(n, Decimal) + "_") + BaseOf(src)
  {
    Regroup(VolumeOf(src), "\\RBStore", sid, "\\", Numeral(n, Decimal), "_", BaseOf(src));
  }

  lemma Regroup(a: string, b: string, c: string, d: string, e: string, f: string, g: string)
    ensures a + (b + (c + (d + (e + (f + g))))) == a + b + c + (d + e + f) + g
  {
    assert d + (e + (f + g)) == (d + e + f) + g;
  }

  /** The appends, each skipped once one has failed. */
  method Assemble(vol: string, dir: string, sid: string, num: string, name: string) returns (r: Built)
    ensures r == if |vol + dir + sid + num + name| <= MAX_PATH then Path(vol + dir + sid + num + name) else TooLong
  {
    var buf := new char[MAX_PATH];
    var ok, len := Append(buf, 0, vol);
    if ok {
      ok, len := Append(buf, len, dir);
    }
    assert ok ==> buf[..len] == vol + dir;
    if ok {
      ok, len := Append(buf, len, sid);
    }
    assert ok ==> buf[..len] == vol + dir + sid;
    if ok {
      ok, len := Append(buf, len, num);
    }
    assert ok ==> buf[..len] == vol + dir + sid + num;
    if ok {
      ok, len := Append(buf, len, name);
    }
    r := if ok then Path(buf[..len]) else TooLong;
  }

  // ------------------------------------------------------------------ reading a name back

  datatype Parts = Parts(volume: string, sid: string, seqNo: nat, base: string)

  function FirstUnderscore(s: string): (r: nat)
    ensures r <= |s| && (r < |s| ==> s[r] == '_')
    ensures forall i :: 0 <= i < r ==> s[i] != '_'
  {
    if s == "" || s[0] == '_' then 0 else 1 + FirstUnderscore(s[1..])
  }

  /** volume \RBStore \sid \digits _ base, read from left to right. */
  function Parse(p: string): Option<Parts> {
    if !OnVolume(p) || !("\\RBStore" <= p[NthSlash(p, 0, 3)..]) then None
    else ParseTail(VolumeOf(p), p[NthSlash(p, 0, 3)..][8..])
  }

  function ParseTail(volume: string, t: string): Option<Parts> {
    if t == "" || t[0] != '\\' || NthSlash(t, 1, 1) == |t| then None
    else
      ParseNumber(volume, t[..NthSlash(t, 1, 1)], t[NthSlash(t, 1, 1) + 1..])
  }

  function ParseNumber(volume: string, sid: string, u: string): Option<Parts> {
    var k := FirstUnderscore(u);
    if k == |u| then None else Some(Parts(volume, sid, Reading(u[..k], Decimal), u[k + 1..]))
  }

  /** The driver's SID text: a backslash and then none. */
  predicate IsSid(s: string) {
    s != "" && s[0] == '\\' && forall i :: 1 <= i < |s| ==> s[i] != '\\'
  }

  lemma {:induction false} NthSlashSame(p: string, q: string, from: nat, k: nat)
    requires k > 0 && from <= |p| && from <= |q| && NthSlash(p, from, k) < |p|
    requires |q| > NthSlash(p, from, k) && q[..NthSlash(p, from, k) + 1] == p[..NthSlash(p, from, k) + 1]
    ensures NthSlash(q, from, k) == NthSlash(p, from, k)
    decreases |p| - from
  {
    var r := NthSlash(p, from, k);
    assert q[from] == q[..r + 1][from] == p[..r + 1][from] == p[from];
    if p[from] != '\\' {
      NthSlashSame(p, q, from + 1, k);
    } else if k > 1 {
      NthSlashSame(p, q, from + 1, k - 1);
    }
  }

  lemma {:induction false} NextSlashIs(t: string, from: nat, at: nat)
    requires from <= at < |t| && t[at] == '\\' && forall i :: from <= i < at ==> t[i] != '\\'
    ensures NthSlash(t, from, 1) == at
    decreases at - from
  {
    if from < at {
      NextSlashIs(t, from + 1, at);
    }
  }

  lemma UnderscoreIs(digits: string, base: string)
    requires forall i :: 0 <= i < |digits| ==> digits[i] != '_'
    ensures FirstUnderscore(digits + ("_" + base)) == |digits|
  {
    var s := digits + ("_" + base);
    assert s[|digits|] == '_';
    assert forall i :: 0 <= i < |digits| ==> s[i] == digits[i];
  }

  lemma CutAtUnderscore(digits: string, base: string)
    requires forall i :: 0 <= i < |digits| ==> digits[i] != '_'
    ensures var u := digits + ("_" + base);
            var k := FirstUnderscore(u);
            k < |u| && u[..k] == digits && u[k + 1..] == base
  {
    UnderscoreIs(digits, base);
  }

  lemma NumeralIsPlain(n: nat)
    ensures forall i :: 0 <= i < |Numeral(n, Decimal)| ==> Numeral(n, Decimal)[i] != '_' && Numeral(n, Decimal)[i] != '\\'
  {
    NumeralIsDigits(n, Decimal);
    var d := Numeral(n, Decimal);
    forall i | 0 <= i < |d| ensures d[i] != '_' && d[i] != '\\' {
      assert IsDigit(d[i], Decimal);
    }
  }

  lemma SidSplits(sid: string, u: string)
    requires IsSid(sid)
    ensures var t := sid + ("\\" + u);
            t[0] == '\\' && NthSlash(t, 1, 1) == |sid| && t[..|sid|] == sid && t[|sid| + 1..] == u
  {
    var t := sid + ("\\" + u);
    assert forall i :: 0 <= i < |sid| ==> t[i] == sid[i];
    NextSlashIs(t, 1, |sid|);
  }

  lemma TailSplits(volume: string, sid: string, digits: string, base: string)
    requires IsSid(sid) && forall i :: 0 <= i < |digits| ==> digits[i] != '_'
    ensures ParseTail(volume, sid + ("\\" + (digits + ("_" + base)))) ==
            Some(Parts(volume, sid, Reading(digits, Decimal), base))
  {
    var u := digits + ("_" + base);
    var t := sid + ("\\" + u);
    SidSplits(sid, u);
    assert ParseTail(volume, t) == ParseNumber(volume, sid, u);
    NumberSplits(volume, sid, digits, base);
  }

  lemma NumberSplits(volume: string, sid: string, digits: string, base: string)
    requires forall i :: 0 <= i < |digits| ==> digits[i] != '_'
    ensures ParseNumber(volume, sid, digits + ("_" + base)) == Some(Parts(volume, sid, Reading(digits, Decimal), base))
  {
    CutAtUnderscore(digits, base);
  }

  lemma TailParses(volume: string, sid: string, n: nat, base: string)
    requires IsSid(sid)
    ensures ParseTail(volume, sid + ("\\" + (Numeral(n, Decimal) + ("_" + base)))) == Some(Parts(volume, sid, n, base))
  {
    NumeralIsPlain(n);
    ReadsBack(n, Decimal);
    TailSplits(volume, sid, Numeral(n, Decimal), base);
  }

  lemma PrefixParses(volume: string, rest: string, src: string)
    requires OnVolume(src) && volume == VolumeOf(src) && "\\" <= rest
    ensures OnVolume(volume + rest) && VolumeOf(volume + rest) == volume && NthSlash(volume + rest, 0, 3) == |volume|
  {
    var r := NthSlash(src, 0, 3);
    assert (volume + rest)[..r + 1] == src[..r + 1];
    NthSlashSame(src, volume + rest, 0, 3);
  }

  /** Volume, SID, sequence number and base name are all recoverable from a staging path. */
  lemma ParsesBack(sid: string, src: string, n: nat)
    requires OnVolume(src) && IsSid(sid)
    ensures Parse(StorePath(sid, src, n)) == Some(Parts(VolumeOf(src), sid, n, BaseOf(src)))
    ensures IsBase(src, Parse(StorePath(sid, src, n)).value.base)
  {
    BaseIs(src);
    var tail := sid + ("\\" + (Numeral(n, Decimal) + ("_" + BaseOf(src))));
    var name := StoreName(sid, n, BaseOf(src));
    assert name == "\\RBStore" + tail && name[8..] == tail;
    PrefixParses(VolumeOf(src), name, src);
    assert (VolumeOf(src) + name)[|VolumeOf(src)|..] == name;
    TailParses(VolumeOf(src), sid, n, BaseOf(src));
  }

  /** A staged file stays on its volume. */
  lemma StaysOnVolume(sid: string, src: string, n: nat)
    requires OnVolume(src)
    ensures OnVolume(StorePath(sid, src, n)) && VolumeOf(StorePath(sid, src, n)) == VolumeOf(src)
  {
    PrefixParses(VolumeOf(src), StoreName(sid, n, BaseOf(src)), src);
  }

  /** Equal staging paths come from the same volume, SID, sequence number and base name. */
  lemma NamesDiffer(sid: string, src: string, n: nat, sid': string, src': string, n': nat)
    requires OnVolume(src) && OnVolume(src') && IsSid(sid) && IsSid(sid')
    requires StorePath(sid, src, n) == StorePath(sid', src', n')
    ensures VolumeOf(src) == VolumeOf(src') && sid == sid' && n == n' && BaseOf(src) == BaseOf(src')
  {
    ParsesBack(sid, src, n);
    ParsesBack(sid', src', n');
  }

  /** Unless the source ends in '\', the staged file lies directly in its SID's staging folder. */
  lemma LiesInSidFolder(sid: string, src: string, n: nat)
    requires OnVolume(src) && src[|src| - 1] != '\\'
    ensures Parent(StorePath(sid, src, n)) == VolumeOf(src) + "\\RBStore" + sid
  {
    var folder := VolumeOf(src) + "\\RBStore" + sid;
    var tail := Numeral(n, Decimal) + ("_" + BaseOf(src));
    Regroup(VolumeOf(src), "\\RBStore", sid, "\\", Numeral(n, Decimal), "_", BaseOf(src));
    var p := StorePath(sid, src, n);
    assert p == folder + ("\\" + tail);
    NumeralIsPlain(n);
    assert forall i :: |folder| < i < |p| ==> p[i] == tail[i - |folder| - 1];
    LastSlashAt(p, |folder|);
    assert p[..|folder|] == folder;
  }

  // ------------------------------------------------------------------ collisions with leftovers

  /** One rename into staging: the name it wants, and which staged names have gone by then. */
  datatype Attempt = Attempt(name: string, gone: set<string>)

  /** The rename never replaces: it fails when the name is taken. How many of the attempts fail for it. */
  function Denied(names: set<string>, attempts: seq<Attempt>): nat
    decreases |attempts|
  {
    if attempts == [] then 0
    else
      var left := names - attempts[0].gone;
      (if attempts[0].name in left then 1 else 0) + Denied(left + {attempts[0].name}, attempts[1..])
  }

  ghost predicate DistinctNames(attempts: seq<Attempt>) {
    forall i, j :: 0 <= i < j < |attempts| ==> attempts[i].name != attempts[j].name
  }

  /** Each name blocks one attempt at most when no two attempts want the same one. */
  lemma {:induction false} EachNameDeniesOnce(names: set<string>, blockers: set<string>, attempts: seq<Attempt>)
    requires DistinctNames(attempts)
    requires forall i :: 0 <= i < |attempts| && attempts[i].name in names ==> attempts[i].name in blockers
    ensures Denied(names, attempts) <= |blockers|
    decreases |attempts|
  {
    if attempts != [] {
      var name, rest := attempts[0].name, attempts[1..];
      var left := names - attempts[0].gone;
      var still := if name in left then blockers - {name} else blockers;
      forall i | 0 <= i < |rest| && rest[i].name in left + {name} ensures rest[i].name in still {
        assert rest[i] == attempts[i + 1];
      }
      EachNameDeniesOnce(left + {name}, still, rest);
    }
  }

  /** The attempt finds its name taken: by a leftover that nothing has removed. */
  ghost predicate Collides(names: set<string>, attempts: seq<Attempt>, i: int)
  {
    0 <= i < |attempts| && attempts[i].name in names && forall j :: 0 <= j <= i ==> attempts[i].name !in attempts[j].gone
  }

  /** How many of the first `n` attempts collide with a leftover. */
  ghost function Collisions(names: set<string>, attempts: seq<Attempt>, n: nat): nat {
    if n == 0 then 0 else Collisions(names, attempts, n - 1) + if Collides(names, attempts, n - 1) then 1 else 0
  }

  /** Exactly the attempts that collide with a leftover fail, when no two attempts want the same name. */
  lemma {:induction false} DeniedAreCollisions(names: set<string>, attempts: seq<Attempt>)
    requires DistinctNames(attempts)
    ensures Denied(names, attempts) == Collisions(names, attempts, |attempts|)
    decreases |attempts|
  {
    if attempts != [] {
      var left := names - attempts[0].gone + {attempts[0].name};
      DeniedAreCollisions(left, attempts[1..]);
      CollisionsLater(names, attempts, |attempts| - 1);
      assert Collides(names, attempts, 0) <==> attempts[0].name in names - attempts[0].gone;
    }
  }

  lemma {:induction false} CollisionsLater(names: set<string>, attempts: seq<Attempt>, n: nat)
    requires n < |attempts| && DistinctNames(attempts)
    ensures var left := names - attempts[0].gone + {attempts[0].name};
            Collisions(names, attempts, n + 1) ==
            (if Collides(names, attempts, 0) then 1 else 0) + Collisions(left, attempts[1..], n)
  {
    if n > 0 {
      CollisionsLater(names, attempts, n - 1);
      CollidesLater(names, attempts, n - 1);
    }
  }

  lemma CollidesLater(names: set<string>, attempts: seq<Attempt>, i: nat)
    requires i < |attempts| - 1 && DistinctNames(attempts)
    ensures var left := names - attempts[0].gone + {attempts[0].name};
            Collides(left, attempts[1..], i) <==> Collides(names, attempts, i + 1)
  {
    var rest, left := attempts[1..], names - attempts[0].gone + {attempts[0].name};
    assert rest[i] == attempts[i + 1] && attempts[i + 1].name != attempts[0].name;
    assert forall j :: 0 <= j <= i ==> rest[j] == attempts[j + 1];
    if Collides(left, rest, i) {
      assert forall j :: 0 <= j <= i + 1 ==> j == 0 || attempts[j] == rest[j - 1];
    }
  }

  datatype Delete = Delete(sid: string, src: string)

  /** The attempts come from these deletes, numbered from `first` on. */
  ghost predicate NamedInOrder(attempts: seq<Attempt>, deletes: seq<Delete>, first: nat) {
    && |attempts| == |deletes|
    && forall i :: 0 <= i < |deletes| ==> NamedBy(attempts[i], deletes[i], first + i)
  }

  ghost predicate NamedBy(a: Attempt, d: Delete, n: nat) {
    OnVolume(d.src) && IsSid(d.sid) && a.name == StorePath(d.sid, d.src, n)
  }

  lemma NumbersApart(attempts: seq<Attempt>, deletes: seq<Delete>, first: nat, i: nat, j: nat)
    requires NamedInOrder(attempts, deletes, first) && i < j < |attempts|
    ensures attempts[i].name != attempts[j].name
  {
    NumberTells(attempts[i], deletes[i], first + i, attempts[j], deletes[j], first + j);
  }

  lemma NumberTells(a: Attempt, d: Delete, n: nat, b: Attempt, e: Delete, m: nat)
    requires NamedBy(a, d, n) && NamedBy(b, e, m) && n != m
    ensures a.name != b.name
  {
    if a.name == b.name {
      NamesDiffer(d.sid, d.src, n, e.sid, e.src, m);
    }
  }

  /** Collisions deny at most as many deletes as names were left over from earlier loads: names given out
      since the load never collide, whatever leaves staging meanwhile. */
  lemma LeftoversBoundDenials(leftovers: set<string>, attempts: seq<Attempt>, deletes: seq<Delete>, first: nat)
    requires NamedInOrder(attempts, deletes, first)
    ensures Denied(leftovers, attempts) <= |leftovers|
  {
    forall i, j | 0 <= i < j < |attempts| ensures attempts[i].name != attempts[j].name {
      NumbersApart(attempts, deletes, first, i, j);
    }
    EachNameDeniesOnce(leftovers, leftovers, attempts);
  }
}
