/** Numerals in the two bases in use, printed low digit first into a buffer and read from the other end. */
module Numerals {
  const U64: nat := 0x1_0000_0000_0000_0000

  datatype Base = Decimal | Base36

  function Radix(b: Base): nat {
    if b == Decimal then 10 else 36
  }

  function Times(q: nat, b: Base): nat {
    if b == Decimal then q * 10 else q * 36
  }

  function Quotient(v: nat, b: Base): (q: nat)
    ensures v >= Radix(b) ==> 0 < q < v
    ensures v < Radix(b) ==> q == 0
  {
    if b == Decimal then v / 10 else v / 36
  }

  function Remainder(v: nat, b: Base): (r: nat)
    ensures r < Radix(b) && v == Times(Quotient(v, b), b) + r
  {
    if b == Decimal then v % 10 else v % 36
  }

  function DigitChar(d: nat): (c: char)
    requires d < 36
    ensures DigitValue(c) == d
  {
    if d < 10 then '0' + d as char else 'A' + (d - 10) as char
  }

  function DigitValue(c: char): nat {
    if '0' <= c <= '9' then (c - '0') as nat else if 'A' <= c <= 'Z' then 10 + (c - 'A') as nat else 36
  }

  /** Digits in order: nine figures after zero, then capitals. */
  lemma DigitsAre(d: nat)
    requires d < 36
    ensures DigitChar(d) == "0123456789ABCDEFGHIJKLMNOPQRSTUVWXYZ"[d]
  {
    var all := "0123456789ABCDEFGHIJKLMNOPQRSTUVWXYZ";
    assert forall i :: 0 <= i < 10 ==> all[i] == '0' + i as char;
    assert forall i :: 10 <= i < 36 ==> all[i] == 'A' + (i - 10) as char;
  }

  function Numeral(v: nat, b: Base): (s: string)
    ensures |s| > 0
  {
    (if v < Radix(b) then "" else Numeral(Quotient(v, b), b)) + [DigitChar(Remainder(v, b))]
  }

  /** What a reader of digits computes. */
  function Reading(s: string, b: Base): nat {
    if s == "" then 0 else Times(Reading(s[..|s| - 1], b), b) + DigitValue(s[|s| - 1])
  }

  lemma ReadingSnoc(s: string, c: char, b: Base)
    ensures Reading(s + [c], b) == Times(Reading(s, b), b) + DigitValue(c)
  {
    assert (s + [c])[..|s|] == s;
  }

  lemma OneDigit(v: nat, b: Base)
    requires v < Radix(b)
    ensures Numeral(v, b) == [DigitChar(v)]
  {
  }

  lemma ManyDigits(v: nat, b: Base)
    requires v >= Radix(b)
    ensures Numeral(v, b) == Numeral(Quotient(v, b), b) + [DigitChar(Remainder(v, b))]
  {
  }

  lemma ReadsOneMore(q: nat, r: nat, v: nat, b: Base)
    requires r < Radix(b) && v == Times(q, b) + r && Reading(Numeral(q, b), b) == q
    ensures Reading(Numeral(q, b) + [DigitChar(r)], b) == v
  {
    ReadingSnoc(Numeral(q, b), DigitChar(r), b);
  }

  /** The reader inverts the printer. */
  lemma {:induction false} ReadsBack(v: nat, b: Base)
    ensures Reading(Numeral(v, b), b) == v
  {
    if v < Radix(b) {
      OneDigit(v, b);
      ReadingSnoc("", DigitChar(v), b);
    } else {
      var q, r := Quotient(v, b), Remainder(v, b);
      ReadsBack(q, b);
      ReadsOneMore(q, r, v, b);
      ManyDigits(v, b);
    }
  }

  /** Different numbers have different numerals. */
  lemma Injective(v: nat, w: nat, b: Base)
    requires Numeral(v, b) == Numeral(w, b)
    ensures v == w
  {
    ReadsBack(v, b);
    ReadsBack(w, b);
  }

  predicate IsDigit(c: char, b: Base) {
    DigitValue(c) < Radix(b)
  }

  lemma {:induction false} NumeralIsDigits(v: nat, b: Base)
    ensures forall i :: 0 <= i < |Numeral(v, b)| ==> IsDigit(Numeral(v, b)[i], b)
  {
    if v >= Radix(b) {
      NumeralIsDigits(Quotient(v, b), b);
    }
  }

  function Pow(b: Base, n: nat): nat {
    if n == 0 then 1 else Times(Pow(b, n - 1), b)
  }

  lemma {:induction false} NumeralLength(v: nat, b: Base, n: nat)
    requires n > 0 && v < Pow(b, n)
    ensures |Numeral(v, b)| <= n
  {
    if v >= Radix(b) {
      assert Pow(b, n) == Times(Pow(b, n - 1), b);
      var r := Remainder(v, b);
      assert Quotient(v, b) < Pow(b, n - 1);
      NumeralLength(Quotient(v, b), b, n - 1);
    }
  }

  function Reversed(s: string): (r: string)
    ensures |r| == |s|
    ensures forall i :: 0 <= i < |s| ==> r[i] == s[|s| - 1 - i]
  {
    seq(|s|, i requires 0 <= i < |s| => s[|s| - 1 - i])
  }

  lemma ReversedSnoc(s: string, c: char)
    ensures Reversed(s + [c]) == [c] + Reversed(s)
  {
  }

  /** The digit loop: low digit first; zero prints one digit. */
  method LowDigitsFirst(v: nat, b: Base, tmp: array<char>) returns (k: nat)
    requires |Numeral(v, b)| <= tmp.Length
    modifies tmp
    ensures k == |Numeral(v, b)| && Reversed(tmp[..k]) == Numeral(v, b)
  {
    k := 0;
    var n := v;
    if v == 0 {
      tmp[0] := '0';
      return 1;
    }
    while n > 0
      invariant 0 <= k <= tmp.Length
      invariant Numeral(v, b) == Ahead(n, b) + Reversed(tmp[..k])
      decreases n
    {
      AheadStep(n, b, tmp[..k]);
      ghost var before := tmp[..k];
      tmp[k] := DigitChar(Remainder(n, b));
      assert tmp[..k + 1] == before + [DigitChar(Remainder(n, b))];
      k, n := k + 1, Quotient(n, b);
    }
  }

  /** The digits still to come. */
  function Ahead(n: nat, b: Base): string {
    if n > 0 then Numeral(n, b) else ""
  }

  lemma AheadStep(n: nat, b: Base, low: string)
    requires n > 0
    ensures Ahead(n, b) + Reversed(low) == Ahead(Quotient(n, b), b) + Reversed(low + [DigitChar(Remainder(n, b))])
    ensures |Ahead(n, b)| > 0
  {
    ReversedSnoc(low, DigitChar(Remainder(n, b)));
    assert Ahead(n, b) == Ahead(Quotient(n, b), b) + [DigitChar(Remainder(n, b))];
  }

  /** The copying loop that puts the digits in order at `at`. */
  method CopyReversed(tmp: array<char>, k: nat, dst: array<char>, at: nat)
    requires k <= tmp.Length && at + k <= dst.Length && tmp != dst
    modifies dst
    ensures dst[..] == old(dst[..at]) + Reversed(tmp[..k]) + old(dst[at + k..])
  {
    var left, to := k, at;
    while left > 0
      invariant 0 <= left <= k && to == at + k - left
      invariant forall i :: 0 <= i < dst.Length ==>
                  dst[i] == if at <= i < to then tmp[k - 1 - (i - at)] else old(dst[i])
    {
      left := left - 1;
      dst[to] := tmp[left];
      to := to + 1;
    }
  }
}
