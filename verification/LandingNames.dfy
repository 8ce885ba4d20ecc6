/**
 Names of landed files: the base-36 token, the path built from it, and the replacing rename. File names
 are compared ignoring case.
 */
module LandingNames {
  import opened Common
  import opened Numerals

  /** 13 digits always do. */
  lemma TokenLength(v: nat)
    requires v < U64
    ensures |Numeral(v, Base36)| <= 13
  {
    assert Pow(Base36, 13) == 170581728179578208256 by {
      assert Pow(Base36, 6) == 2176782336;
      assert Pow(Base36, 12) == 4738381338321616896;
    }
    NumeralLength(v, Base36, 13);
  }

  /** Base36 into a buffer of `cch` characters, NUL included. Too small a buffer keeps the low digits; with
      room for 13 digits, as its caller gives it, it never cuts. */
  method Token(v: nat, out: array<char>, cch: nat) returns (n: nat)
    requires v < U64 && 0 < cch <= out.Length
    modifies out
    ensures n == (if |Numeral(v, Base36)| >= cch then cch - 1 else |Numeral(v, Base36)|)
    ensures out[..n] == Numeral(v, Base36)[|Numeral(v, Base36)| - n..] && out[n] == 0 as char
    ensures cch > 13 ==> out[..n] == Numeral(v, Base36)
  {
    TokenLength(v);
    var tmp := new char[32];
    var k := LowDigitsFirst(v, Base36, tmp);
    n := if k >= cch then cch - 1 else k;
    LowPart(tmp[..k], n);
    assert tmp[..k][..n] == tmp[..n];
    CopyReversed(tmp, n, out, 0);
    out[n] := 0 as char;
    assert out[..n] == Reversed(tmp[..n]);
  }

  lemma LowPart(s: string, n: nat)
    requires n <= |s|
    ensures Reversed(s[..n]) == Reversed(s)[|s| - n..]
  {
  }

  // ------------------------------------------------------------------ the landed path

  /** One landing: the clock in milliseconds, the row's id, the recycle folder and the staged file. */
  datatype Landing = Landing(ms: nat, id: nat, dir: string, store: string)

  function LastDot(p: string): (r: int)
    ensures -1 <= r < |p|
    ensures r >= 0 ==> p[r] == '.'
    ensures forall i :: r < i < |p| ==> p[i] != '.'
  {
    if p == "" then -1 else if p[|p| - 1] == '.' then |p| - 1 else LastDot(p[..|p| - 1])
  }

  function Extension(p: string): string {
    if LastDot(p) < 0 then "" else p[LastDot(p)..]
  }

  function TokenValue(l: Landing): nat {
    l.ms + l.id
  }

  function Target(l: Landing): string {
    l.dir + "\\" + ("$R" + (Numeral(TokenValue(l), Base36) + Extension(l.store)))
  }

  /** "$R", the token for the clock plus the id, and the staged file's extension: from its last dot on, or
      nothing. */
  lemma TargetIs(l: Landing, stem: string, ext: string)
    requires '.' !in ext
    ensures l.store == stem + "." + ext ==>
              Target(l) == l.dir + "\\" + "$R" + Numeral(l.ms + l.id, Base36) + "." + ext
    ensures '.' !in l.store ==> Target(l) == l.dir + "\\" + "$R" + Numeral(l.ms + l.id, Base36)
  {
    var n := Numeral(l.ms + l.id, Base36);
    if l.store == stem + "." + ext {
      assert l.store[|stem|] == '.' && forall i :: |stem| < i < |l.store| ==> l.store[i] == ext[i - |stem| - 1];
      assert LastDot(l.store) == |stem|;
      assert Extension(l.store) == "." + ext;
      assert l.dir + "\\" + ("$R" + (n + ("." + ext))) == l.dir + "\\" + "$R" + n + "." + ext;
    }
    if '.' !in l.store {
      assert l.dir + "\\" + ("$R" + (n + "")) == l.dir + "\\" + "$R" + n;
    }
  }

  /** The staged name's last dot, if any, is in its last component. */
  predicate Named(l: Landing) {
    LastDot(l.store) < 0 || LastDot(l.store) > LastSlash(l.store)
  }

  predicate Without(s: string, c: char) {
    forall i :: 0 <= i < |s| ==> s[i] != c
  }

  lemma LastSlashIs(a: string, b: string)
    requires Without(b, '\\')
    ensures LastSlash(a + "\\" + b) == |a|
  {
    SlashInside(a + "\\", b, a + "\\" + b);
  }

  lemma SlashInside(h: string, b: string, s: string)
    requires s == h + b && h != "" && h[|h| - 1] == '\\' && Without(b, '\\')
    ensures LastSlash(s) == |h| - 1
  {
    forall i | |h| <= i < |s| ensures s[i] != '\\' {
      assert s[i] == b[i - |h|];
    }
    LastSlashAt(s, |h| - 1);
  }

  lemma SplitAtLast(a: string, b: string, c: string, d: string)
    requires Without(b, '\\') && Without(d, '\\')
    ensures a + "\\" + b == c + "\\" + d <==> a == c && b == d
  {
    var s, t := a + "\\" + b, c + "\\" + d;
    LastSlashIs(a, b);
    LastSlashIs(c, d);
    assert a == s[..|a|] && b == s[|a| + 1..] && c == t[..|c|] && d == t[|c| + 1..];
  }

  function FirstDot(s: string): (r: nat)
    ensures r <= |s| && (r < |s| ==> s[r] == '.')
    ensures forall i :: 0 <= i < r ==> s[i] != '.'
  {
    if s == "" || s[0] == '.' then 0 else 1 + FirstDot(s[1..])
  }

  lemma FirstDotIs(a: string, b: string)
    requires Without(a, '.') && (b == "" || b[0] == '.')
    ensures FirstDot(a + b) == |a|
  {
    if b != "" {
      assert (a + b)[|a|] == '.';
    }
    assert forall i :: 0 <= i < |a| ==> (a + b)[i] == a[i];
  }

  lemma SplitAtDot(a: string, b: string, c: string, d: string)
    requires Without(a, '.') && Without(c, '.') && (b == "" || b[0] == '.') && (d == "" || d[0] == '.')
    ensures a + b == c + d <==> a == c && b == d
  {
    var s, t := a + b, c + d;
    FirstDotIs(a, b);
    FirstDotIs(c, d);
    assert a == s[..|a|] && b == s[|a|..] && c == t[..|c|] && d == t[|c|..];
  }

  lemma TokenIsPlain(v: nat)
    ensures Fold(Numeral(v, Base36)) == Numeral(v, Base36)
    ensures Without(Numeral(v, Base36), '.') && Without(Numeral(v, Base36), '\\')
  {
    NumeralIsDigits(v, Base36);
    var s := Numeral(v, Base36);
    forall i | 0 <= i < |s| ensures Up(s[i]) == s[i] != '.' && s[i] != '\\' {
      assert IsDigit(s[i], Base36);
    }
  }

  lemma FoldedTarget(l: Landing)
    ensures Fold(Target(l)) == Fold(l.dir) + "\\" + ("$R" + (Numeral(TokenValue(l), Base36) + Fold(Extension(l.store))))
  {
    var n := Numeral(TokenValue(l), Base36);
    TokenIsPlain(TokenValue(l));
    FoldConcat(n, Extension(l.store));
    FoldConcat("$R", n + Extension(l.store));
    FoldConcat(l.dir, "\\");
    FoldConcat(l.dir + "\\", "$R" + (n + Extension(l.store)));
    assert Fold("$R") == "$R" && Fold("\\") == "\\";
  }

  lemma PlainTail(l: Landing)
    requires Named(l)
    ensures Without("$R" + (Numeral(TokenValue(l), Base36) + Fold(Extension(l.store))), '\\')
  {
    TokenIsPlain(TokenValue(l));
  }

  /** Same folder, same extension, and clock and id that add up to the same. */
  ghost predicate Clash(l: Landing, m: Landing) {
    Fold(l.dir) == Fold(m.dir) && TokenValue(l) == TokenValue(m) &&
    Fold(Extension(l.store)) == Fold(Extension(m.store))
  }

  /** Two landings have the same name exactly when they clash. */
  lemma SameTarget(l: Landing, m: Landing)
    requires Named(l) && Named(m)
    ensures Fold(Target(l)) == Fold(Target(m)) <==> Clash(l, m)
  {
    var p, q := Numeral(TokenValue(l), Base36), Numeral(TokenValue(m), Base36);
    var e, f := Fold(Extension(l.store)), Fold(Extension(m.store));
    FoldedTarget(l);
    FoldedTarget(m);
    PlainTail(l);
    PlainTail(m);
    SplitAtLast(Fold(l.dir), "$R" + (p + e), Fold(m.dir), "$R" + (q + f));
    assert ("$R" + (p + e))[2..] == p + e && ("$R" + (q + f))[2..] == q + f;
    TokenIsPlain(TokenValue(l));
    TokenIsPlain(TokenValue(m));
    SplitAtDot(p, e, q, f);
    if p == q {
      Injective(TokenValue(l), TokenValue(m), Base36);
    }
  }

  // ------------------------------------------------------------------ a history of landings

  type Folder = map<string, nat>

  /** The rename replaces whatever has the name. */
  function Land(fs: Folder, l: Landing): Folder {
    fs[Fold(Target(l)) := l.id]
  }

  function LandAll(fs: Folder, ls: seq<Landing>): Folder {
    if ls == [] then fs else Land(LandAll(fs, ls[..|ls| - 1]), ls[|ls| - 1])
  }

  /** Every landing's file is still under its name. */
  ghost predicate AllThere(fs: Folder, ls: seq<Landing>) {
    forall i :: 0 <= i < |ls| ==> Fold(Target(ls[i])) in fs && fs[Fold(Target(ls[i]))] == ls[i].id
  }

  ghost predicate NoClash(ls: seq<Landing>) {
    forall i, j :: 0 <= i < j < |ls| ==> !Clash(ls[i], ls[j])
  }

  ghost predicate Sound(ls: seq<Landing>) {
    && (forall i :: 0 <= i < |ls| ==> Named(ls[i]))
    && (forall i, j :: 0 <= i < j < |ls| ==> ls[i].id != ls[j].id)
  }

  /** A name holds the last landing that took it. */
  lemma {:induction false} StaysUnder(fs: Folder, ls: seq<Landing>, i: nat)
    requires i < |ls| && forall j :: i < j < |ls| ==> Fold(Target(ls[j])) != Fold(Target(ls[i]))
    ensures Fold(Target(ls[i])) in LandAll(fs, ls) && LandAll(fs, ls)[Fold(Target(ls[i]))] == ls[i].id
  {
    var last := |ls| - 1;
    if i < last {
      StaysUnder(fs, ls[..last], i);
    }
  }

  lemma HoldsTheLast(fs: Folder, ls: seq<Landing>, i: nat)
    requires i < |ls| && Sound(ls) && forall j :: i < j < |ls| ==> !Clash(ls[i], ls[j])
    ensures Fold(Target(ls[i])) in LandAll(fs, ls) && LandAll(fs, ls)[Fold(Target(ls[i]))] == ls[i].id
  {
    forall j | i < j < |ls| ensures Fold(Target(ls[j])) != Fold(Target(ls[i])) {
      SameTarget(ls[i], ls[j]);
    }
    StaysUnder(fs, ls, i);
  }

  /** No landing overwrites another exactly when no two of them clash. */
  lemma NothingOverwritten(fs: Folder, ls: seq<Landing>)
    requires Sound(ls)
    ensures AllThere(LandAll(fs, ls), ls) <==> NoClash(ls)
  {
    if NoClash(ls) {
      forall i | 0 <= i < |ls|
        ensures Fold(Target(ls[i])) in LandAll(fs, ls) && LandAll(fs, ls)[Fold(Target(ls[i]))] == ls[i].id {
        HoldsTheLast(fs, ls, i);
      }
    } else {
      var i, j :| 0 <= i < j < |ls| && Clash(ls[i], ls[j]);
      SameTarget(ls[i], ls[j]);
      assert ls[i].id != ls[j].id;
      var k := LastWith(fs, ls, j);
    }
  }

  /** Some landing from `j` on took the name last. */
  lemma {:induction false} LastWith(fs: Folder, ls: seq<Landing>, j: nat) returns (k: nat)
    requires j < |ls| && Sound(ls)
    ensures j <= k < |ls| && Fold(Target(ls[k])) == Fold(Target(ls[j]))
    ensures Fold(Target(ls[j])) in LandAll(fs, ls) && LandAll(fs, ls)[Fold(Target(ls[j]))] == ls[k].id
  {
    var last := |ls| - 1;
    if Fold(Target(ls[last])) == Fold(Target(ls[j])) {
      k := last;
    } else {
      k := LastWith(fs, ls[..last], j);
    }
  }

  /** Rows landed in increasing id order while the clock does not go back get increasing tokens ... */
  lemma InOrderNoClash(ls: seq<Landing>)
    requires forall i, j :: 0 <= i < j < |ls| ==> ls[i].id < ls[j].id && ls[i].ms <= ls[j].ms
    ensures forall i, j :: 0 <= i < j < |ls| ==> TokenValue(ls[i]) < TokenValue(ls[j])
    ensures NoClash(ls)
  {
    forall i, j | 0 <= i < j < |ls| ensures TokenValue(ls[i]) < TokenValue(ls[j]) && !Clash(ls[i], ls[j]) {
      assert ls[i].id < ls[j].id && ls[i].ms <= ls[j].ms;
    }
  }

  /** ... so none is lost, on top of whatever the folders already held. */
  lemma InOrderAllThere(fs: Folder, ls: seq<Landing>)
    requires forall i :: 0 <= i < |ls| ==> Named(ls[i])
    requires forall i, j :: 0 <= i < j < |ls| ==> ls[i].id < ls[j].id && ls[i].ms <= ls[j].ms
    ensures AllThere(LandAll(fs, ls), ls)
  {
    InOrderNoClash(ls);
    assert Sound(ls);
    NothingOverwritten(fs, ls);
  }

  /** An older row that lands a millisecond after the one with the next id replaces its file, although the
      clock never went back. */
  lemma OutOfOrderOverwrites(fs: Folder, l: Landing)
    requires Named(l) && l.id > 0
    ensures var m := l.(ms := l.ms + 1, id := l.id - 1);
            Fold(Target(m)) == Fold(Target(l)) && !AllThere(LandAll(fs, [l, m]), [l, m])
  {
    var m := l.(ms := l.ms + 1, id := l.id - 1);
    assert Clash([l, m][0], [l, m][1]);
    SameTarget(l, m);
    NothingOverwritten(fs, [l, m]);
  }
}
