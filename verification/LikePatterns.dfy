/**
 SQL LIKE with ESCAPE '\' as SQLite evaluates it (ASCII case-insensitive), the escaping both services
 apply to user text, and what the resulting queries select.
 */
module LikePatterns {
  import opened Common
  import opened Paths

  predicate Meta(c: char) {
    c == '%' || c == '_' || c == '\\'
  }

  /** s LIKE pat ESCAPE '\'. */
  predicate Like(pat: string, s: string)
    decreases |pat|, |s|
  {
    if pat == "" then s == ""
    else if pat[0] == '\\' then |pat| >= 2 && s != "" && Up(pat[1]) == Up(s[0]) && Like(pat[2..], s[1..])
    else if pat[0] == '%' then Like(pat[1..], s) || (s != "" && Like(pat, s[1..]))
    else s != "" && (pat[0] == '_' || Up(pat[0]) == Up(s[0])) && Like(pat[1..], s[1..])
  }

  /** Every metacharacter preceded by a backslash. */
  function Escaped(p: string): string {
    if p == "" then ""
    else (if Meta(p[0]) then ['\\', p[0]] else [p[0]]) + Escaped(p[1..])
  }

  lemma {:induction false} EscapedSnoc(p: string, c: char)
    ensures Escaped(p + [c]) == Escaped(p) + (if Meta(c) then ['\\', c] else [c])
  {
    if p != "" {
      EscapedSnoc(p[1..], c);
      assert (p + [c])[1..] == p[1..] + [c];
    } else {
      assert (p + [c])[1..] == "";
      assert Escaped("") == "";
    }
  }

  lemma {:induction false} EscapedLength(p: string)
    ensures |p| <= |Escaped(p)| <= 2 * |p|
  {
    if p != "" {
      EscapedLength(p[1..]);
    }
  }

  lemma EscapedHead(p: string, t: string, s: string)
    requires p != ""
    ensures Like(Escaped(p) + t, s) <==> s != "" && Up(p[0]) == Up(s[0]) && Like(Escaped(p[1..]) + t, s[1..])
  {
    var head := if Meta(p[0]) then ['\\', p[0]] else [p[0]];
    var pat := Escaped(p) + t;
    assert pat == head + (Escaped(p[1..]) + t);
    assert pat[|head|..] == Escaped(p[1..]) + t;
  }

  lemma FoldHead(p: string, s: string)
    requires 0 < |p| <= |s|
    ensures Fold(s[..|p|]) == Fold(p) <==> Up(s[0]) == Up(p[0]) && Fold(s[1..|p|]) == Fold(p[1..])
  {
    assert Fold(s[..|p|]) == [Up(s[0])] + Fold(s[1..|p|]);
    assert Fold(p) == [Up(p[0])] + Fold(p[1..]);
  }

  /** Escaped text at the head of a pattern matches exactly its own characters, case aside. */
  lemma {:induction false} EscapedMatchesLiterally(p: string, t: string, s: string)
    ensures Like(Escaped(p) + t, s) <==> |p| <= |s| && Fold(s[..|p|]) == Fold(p) && Like(t, s[|p|..])
  {
    if p == "" {
      assert Escaped(p) + t == t && s[0..] == s;
    } else {
      EscapedHead(p, t, s);
      if s != "" {
        EscapedMatchesLiterally(p[1..], t, s[1..]);
        if |p| <= |s| {
          assert s[1..][..|p| - 1] == s[1..|p|] && s[1..][|p| - 1..] == s[|p|..];
          FoldHead(p, s);
        }
      }
    }
  }

  lemma {:induction false} PercentMatchesAll(s: string)
    ensures Like("%", s)
  {
    if s != "" {
      PercentMatchesAll(s[1..]);
    }
  }

  lemma {:induction false} PercentSkips(t: string, s: string)
    ensures Like("%" + t, s) <==> exists i :: 0 <= i <= |s| && Like(t, s[i..])
  {
    var pat := "%" + t;
    assert pat[1..] == t && s[0..] == s;
    if s != "" {
      PercentSkips(t, s[1..]);
      assert forall i :: 0 <= i <= |s[1..]| ==> s[1..][i..] == s[i + 1..];
      if Like(pat, s[1..]) {
        var i :| 0 <= i <= |s[1..]| && Like(t, s[1..][i..]);
        assert Like(t, s[i + 1..]);
      }
      if i :| 0 <= i <= |s| && Like(t, s[i..]) && i > 0 {
        assert Like(t, s[1..][i - 1..]);
      }
    }
  }

  /** A prefix query selects exactly the strings with that prefix, but for the case of letters. */
  lemma PrefixQueryIsExact(p: string, s: string)
    ensures Like(Escaped(p) + "%", s) <==> |p| <= |s| && SameText(p, s[..|p|])
    ensures Like(Escaped(p) + "%", s) <==> Fold(p) <= Fold(s)
  {
    EscapedMatchesLiterally(p, "%", s);
    if |p| <= |s| {
      FoldsAgree(p, s[..|p|]);
      PercentMatchesAll(s[|p|..]);
      FoldSlice(s, 0, |p|);
    }
  }

  predicate OccursAt(p: string, s: string, i: int) {
    0 <= i && i + |p| <= |s| && SameText(p, s[i..i + |p|])
  }

  /** A search query selects exactly the strings containing the text, but for the case of letters. */
  lemma SearchQueryIsExact(p: string, s: string)
    ensures Like("%" + Escaped(p) + "%", s) <==> exists i :: OccursAt(p, s, i)
  {
    var t := Escaped(p) + "%";
    assert "%" + Escaped(p) + "%" == "%" + t;
    PercentSkips(t, s);
    forall i | 0 <= i <= |s|
      ensures Like(t, s[i..]) <==> OccursAt(p, s, i)
    {
      EscapedMatchesLiterally(p, "%", s[i..]);
      if i + |p| <= |s| {
        PercentMatchesAll(s[i..][|p|..]);
        FoldsAgree(p, s[i..i + |p|]);
        assert s[i..][..|p|] == s[i..i + |p|];
      }
    }
  }

  // ------------------------------------------------------------------ building the pattern

  /** SqlLikeEscape followed by appending '%', over the buffer of 2n + 2 units the caller allocates:
      `out[..len]` is the pattern and `out[len]` its terminator. */
  method PrefixPattern(prefix: string) returns (out: array<char>, len: nat)
    ensures len < out.Length == 2 * |prefix| + 2
    ensures out[..len] == Escaped(prefix) + "%" && out[len] == '\0'
  {
    out := new char[2 * |prefix| + 2];
    len := 0;
    var i := 0;
    while i < |prefix|
      invariant 0 <= i <= |prefix| && len <= 2 * i
      invariant out[..len] == Escaped(prefix[..i])
    {
      EscapedSnoc(prefix[..i], prefix[i]);
      assert prefix[..i + 1] == prefix[..i] + [prefix[i]];
      if prefix[i] == '%' || prefix[i] == '_' || prefix[i] == '\\' {
        out[len] := '\\';
        len := len + 1;
      }
      out[len] := prefix[i];
      len := len + 1;
      i := i + 1;
    }
    assert prefix[..i] == prefix;
    out[len] := '%';
    len := len + 1;
    out[len] := '\0';
  }

  /** likeEscape of the REST service: the same text, grown piece by piece. */
  method EscapeForSearch(text: string) returns (b: string)
    ensures b == Escaped(text) && |b| <= 2 * |text|
  {
    b := "";
    for i := 0 to |text|
      invariant b == Escaped(text[..i])
    {
      EscapedSnoc(text[..i], text[i]);
      assert text[..i + 1] == text[..i] + [text[i]];
      if Meta(text[i]) {
        b := b + ['\\'];
      }
      b := b + [text[i]];
    }
    assert text[..|text|] == text;
    EscapedLength(text);
  }

  // ------------------------------------------------------------------ what tree restore selects

  /** All components of `ps` but the last start `ss`, and the last is a string prefix of the next one. */
  predicate Near(ps: seq<string>, ss: seq<string>)
    requires |ps| >= 1
  {
    |ss| >= 1 &&
    if |ps| == 1 then ps[0] <= ss[0] else ps[0] == ss[0] && Near(ps[1..], ss[1..])
  }

  lemma {:induction false} NearMeans(ps: seq<string>, ss: seq<string>)
    requires |ps| >= 1
    ensures var k := |ps| - 1;
            Near(ps, ss) <==> |ps| <= |ss| && ps[..k] == ss[..k] && ps[k] <= ss[k]
  {
    if |ps| > 1 && |ss| > 0 {
      NearMeans(ps[1..], ss[1..]);
      var k := |ps| - 1;
      if |ps| <= |ss| {
        assert ps[..k] == [ps[0]] + ps[1..][..k - 1] && ss[..k] == [ss[0]] + ss[1..][..k - 1];
      }
    }
  }

  /** A plain string prefix, in components. */
  lemma {:induction false} PrefixInComponents(p: string, s: string)
    ensures p <= s <==> Near(Split(p), Split(s))
  {
    if p != "" && s != "" {
      PrefixInComponents(p[1..], s[1..]);
      var r, t := Split(p[1..]), Split(s[1..]);
      assert p == [p[0]] + p[1..] && s == [s[0]] + s[1..];
      if p[0] == '\\' && s[0] == '\\' {
        assert Split(p)[1..] == r && Split(s)[1..] == t;
      } else if p[0] != '\\' && s[0] != '\\' {
        HeadsGrow(p[0], r[0], s[0], t[0]);
        assert Split(p)[1..] == r[1..] && Split(s)[1..] == t[1..];
      }
    }
  }

  lemma HeadsGrow(c: char, a: string, d: char, b: string)
    ensures [c] + a == [d] + b <==> c == d && a == b
    ensures [c] + a <= [d] + b <==> c == d && a <= b
  {
    assert ([c] + a)[1..] == a && ([d] + b)[1..] == b;
    if c == d && a <= b {
      var x, y := [c] + a, [d] + b;
      assert forall i :: 0 <= i < |x| ==> x[i] == y[i] by {
        assert forall i :: 0 <= i < |a| ==> a[i] == b[i];
        assert forall i :: 1 <= i < |x| ==> x[i] == a[i - 1] && y[i] == b[i - 1];
      }
    }
    if [c] + a <= [d] + b {
      var x, y := [c] + a, [d] + b;
      assert x == y[..|x|] && x[0] == y[0];
      assert a == y[..|x|][1..] == b[..|a|];
    }
  }

  /** Beyond the entries under `p`, a prefix query on `p` selects exactly those whose component at the
      end of `p` strictly extends the last component of `p`: the siblings sharing its name as a prefix. */
  lemma TreeQuerySelects(p: string, s: string)
    ensures var ps, ss := Split(Fold(p)), Split(Fold(s));
            var k := |ps| - 1;
            Like(Escaped(p) + "%", s) <==>
              ps <= ss || (|ps| <= |ss| && ps[..k] == ss[..k] && ps[k] < ss[k])
  {
    var ps, ss := Split(Fold(p)), Split(Fold(s));
    PrefixQueryIsExact(p, s);
    PrefixInComponents(Fold(p), Fold(s));
    NearMeans(ps, ss);
    LastComponent(ps, ss);
  }

  lemma LastComponent(ps: seq<string>, ss: seq<string>)
    requires |ps| >= 1
    ensures var k := |ps| - 1;
            ps <= ss <==> |ps| <= |ss| && ps[..k] == ss[..k] && ps[k] == ss[k]
  {
    var k := |ps| - 1;
    if |ps| <= |ss| {
      assert ps == ps[..k] + [ps[k]] && ss[..|ps|] == ss[..k] + [ss[k]];
    }
  }

  /** Whatever a directory is called, an entry whose name merely starts the same way is selected too. */
  lemma SiblingIsSelected(p: string, more: string)
    requires more != "" && more[0] != '\\'
    ensures Like(Escaped(p) + "%", p + more)
    ensures !(Split(Fold(p)) <= Split(Fold(p + more)))
  {
    FoldConcat(p, more);
    PrefixQueryIsExact(p, p + more);
    BoundaryIsComponents(Fold(p), Fold(p + more));
    assert Fold(p + more)[|p|] == Up(more[0]);
  }
}
