/** Small vocabulary shared by the models: an option type, ASCII case folding and path tails. */
module Common {
  datatype Option<+T> = None | Some(value: T)

  function Min(a: nat, b: nat): nat {
    if a < b then a else b
  }

  /** ASCII upper-casing: the fold both the driver and the service apply before comparing text. */
  function Up(c: char): char {
    if 'a' <= c <= 'z' then c - 32 as char else c
  }

  function Fold(s: string): (r: string)
    ensures |r| == |s|
    ensures forall i :: 0 <= i < |s| ==> r[i] == Up(s[i])
  {
    seq(|s|, i requires 0 <= i < |s| => Up(s[i]))
  }

  /** The same character, or the two cases of one letter. */
  predicate SameLetter(c: char, d: char) {
    c == d || ('a' <= c <= 'z' && d == c - 32 as char) || ('a' <= d <= 'z' && c == d - 32 as char)
  }

  /** The same text but for the case of letters. */
  predicate SameText(s: string, t: string) {
    |s| == |t| && forall i :: 0 <= i < |s| ==> SameLetter(s[i], t[i])
  }

  /** Each small letter goes to its capital; every other character stays. */
  lemma UpIsUpperCase(c: char)
    ensures forall i :: 0 <= i < 26 ==> Up("abcdefghijklmnopqrstuvwxyz"[i]) == "ABCDEFGHIJKLMNOPQRSTUVWXYZ"[i]
    ensures c !in "abcdefghijklmnopqrstuvwxyz" ==> Up(c) == c
  {
    var small, large := "abcdefghijklmnopqrstuvwxyz", "ABCDEFGHIJKLMNOPQRSTUVWXYZ";
    assert forall i :: 0 <= i < 26 ==> small[i] == 'a' + i as char && large[i] == 'A' + i as char;
    if 'a' <= c <= 'z' {
      assert small[(c - 'a') as int] == c;
    }
  }

  /** So folded texts agree exactly when the texts do but for case. */
  lemma FoldsAgree(s: string, t: string)
    ensures Fold(s) == Fold(t) <==> SameText(s, t)
  {
    if |s| == |t| {
      forall i | 0 <= i < |s| ensures Up(s[i]) == Up(t[i]) <==> SameLetter(s[i], t[i]) {
        LettersAgree(s[i], t[i]);
      }
      if Fold(s) == Fold(t) {
        assert forall i :: 0 <= i < |s| ==> Fold(s)[i] == Up(s[i]) && Fold(t)[i] == Up(t[i]);
      }
    }
  }

  lemma LettersAgree(c: char, d: char)
    ensures Up(c) == Up(d) <==> SameLetter(c, d)
  {
  }

  lemma FoldSlice(s: string, i: nat, j: nat)
    requires i <= j <= |s|
    ensures Fold(s[i..j]) == Fold(s)[i..j]
  {
  }

  lemma FoldConcat(s: string, t: string)
    ensures Fold(s + t) == Fold(s) + Fold(t)
  {
  }

  /** RBF_MAX_PATH, in units. */
  const MAX_PATH: nat := 1024

  /** Room for a path in the service's stack buffers, NUL included. */
  const MAX_RECON_PATH: nat := 1024

  /** Position of the last '\', or -1 (wcsrchr). */
  function LastSlash(p: string): (r: int)
    ensures -1 <= r < |p|
    ensures r >= 0 ==> p[r] == '\\'
    ensures forall i :: r < i < |p| ==> p[i] != '\\'
  {
    if p == "" then -1 else if p[|p| - 1] == '\\' then |p| - 1 else LastSlash(p[..|p| - 1])
  }

  /** What follows the last '\'. */
  function BaseName(p: string): string {
    p[LastSlash(p) + 1..]
  }

  function Parent(p: string): string {
    if LastSlash(p) < 0 then "" else p[..LastSlash(p)]
  }

  lemma LastSlashAt(p: string, at: nat)
    requires at < |p| && p[at] == '\\' && forall i :: at < i < |p| ==> p[i] != '\\'
    ensures LastSlash(p) == at
  {
  }

  /** Cutting a path at its last '\'. */
  lemma PathSplits(p: string)
    ensures '\\' !in BaseName(p)
    ensures '\\' in p ==> p == Parent(p) + "\\" + BaseName(p)
    ensures '\\' !in p ==> Parent(p) == "" && BaseName(p) == p
  {
    var k := LastSlash(p);
    if '\\' in p {
      assert k >= 0 && p == p[..k] + [p[k]] + p[k + 1..];
    }
  }

  /** Without its leading backslashes. */
  function StripSlashes(s: string): (r: string)
    ensures r == "" || r[0] != '\\'
  {
    if s != "" && s[0] == '\\' then StripSlashes(s[1..]) else s
  }

  /** What goes is exactly the backslashes at the front. */
  lemma {:induction false} StripsExactly(s: string)
    ensures var n := |s| - |StripSlashes(s)|;
            0 <= n && s[n..] == StripSlashes(s) && forall i :: 0 <= i < n ==> s[i] == '\\'
  {
    if s != "" && s[0] == '\\' {
      StripsExactly(s[1..]);
    }
  }
}
