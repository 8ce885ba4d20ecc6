/**
 REG_MULTI_SZ values: the driver's bounded walk into its fixed table, and the service's unbounded one.
 The data are arbitrary bytes.
 */
module MultiSz {
  import opened Common
  import opened Wire
  import Rows

  type Text = seq<Unit>

  // ------------------------------------------------------------------ what the value means

  /** The value cut at every NUL; the last piece is what follows the last NUL. */
  function Pieces(u: Text): (r: seq<Text>)
    ensures |r| > 0
  {
    if u == [] then [[]]
    else if u[0] == 0 then [[]] + Pieces(u[1..])
    else
      var rest := Pieces(u[1..]);
      [[u[0]] + rest[0]] + rest[1..]
  }

  /** The pieces before the first empty one. */
  function Strings(pieces: seq<Text>): seq<Text> {
    if pieces == [] || pieces[0] == [] then [] else [pieces[0]] + Strings(pieces[1..])
  }

  /** The strings of a value. */
  function Listed(u: Text): seq<Text> {
    Strings(Pieces(u))
  }

  /** The first `max` strings shorter than `limit`. */
  function Chosen(list: seq<Text>, limit: nat, max: nat): (r: seq<Text>)
    ensures |r| <= max
  {
    if list == [] || max == 0 then []
    else if |list[0]| < limit then [list[0]] + Chosen(list[1..], limit, max - 1)
    else Chosen(list[1..], limit, max)
  }

  function UpUnit(u: Unit): Unit {
    if 'a' as int <= u <= 'z' as int then u - 32 else u
  }

  function Upcase(t: Text): (r: Text)
    ensures |r| == |t|
  {
    seq(|t|, i requires 0 <= i < |t| => UpUnit(t[i]))
  }

  function UpcaseAll(list: seq<Text>): seq<Text> {
    seq(|list|, i requires 0 <= i < |list| => Upcase(list[i]))
  }

  /** The upper case of a unit is that of its character. */
  lemma UpUnitIsUp(c: char)
    requires c as int < 0x10000
    ensures UpUnit(c as int) == Up(c) as int
  {
  }

  predicate Fits(limit: nat, x: Text) {
    |x| < limit
  }

  function Fitting(limit: nat): Text -> bool {
    (x: Text) => Fits(limit, x)
  }

  lemma {:induction false} CountCons<T>(t: seq<T>, p: T -> bool)
    requires t != []
    ensures Rows.Count(t, p) == (if p(t[0]) then 1 else 0) + Rows.Count(t[1..], p)
  {
    var k := |t| - 1;
    if k == 0 {
      assert t[..0] == [] && t[1..] == [];
    } else {
      CountCons(t[..k], p);
      assert t[..k][1..] == t[1..][..k - 1] && t[1..][k - 1] == t[k];
    }
  }

  lemma {:induction false} ChosenCount(list: seq<Text>, limit: nat, max: nat)
    ensures |Chosen(list, limit, max)| == Min(max, Rows.Count(list, Fitting(limit)))
  {
    if list != [] && max > 0 {
      CountCons(list, Fitting(limit));
      ChosenCount(list[1..], limit, if Fits(limit, list[0]) then max - 1 else max);
    }
  }

  lemma BeforeCons(list: seq<Text>, limit: nat, i: nat)
    requires 0 < i <= |list|
    ensures Rows.Before(list, i, Fitting(limit)) ==
            (if Fits(limit, list[0]) then 1 else 0) + Rows.Before(list[1..], i - 1, Fitting(limit))
  {
    CountCons(list[..i], Fitting(limit));
    assert list[..i][1..] == list[1..][..i - 1];
  }

  /** A longer string is skipped, not the end: a string is loaded exactly when it fits and fewer than `max`
      that fit come before it, and it goes to the place after them. */
  lemma {:induction false} ChosenAre(list: seq<Text>, limit: nat, max: nat, i: nat)
    requires i < |list| && Fits(limit, list[i]) && Rows.Before(list, i, Fitting(limit)) < max
    ensures var k := Rows.Before(list, i, Fitting(limit));
            k < |Chosen(list, limit, max)| && Chosen(list, limit, max)[k] == list[i]
    decreases i
  {
    if i > 0 {
      BeforeCons(list, limit, i);
      ChosenAre(list[1..], limit, if Fits(limit, list[0]) then max - 1 else max, i - 1);
    }
  }

  // ------------------------------------------------------------------ the driver's code

  function UnitAt(data: seq<Byte>, p: nat): Unit
    requires 2 * p + 2 <= |data|
  {
    Pair(data[2 * p], data[2 * p + 1])
  }

  /** The inner loop: from `from` to the next NUL or the last whole unit. */
  method ScanString(data: seq<Byte>, from: nat) returns (p: nat)
    requires 2 * from + 2 <= |data|
    ensures from <= p <= |Units(data)|
    ensures forall k :: from <= k < p ==> Units(data)[k] != 0
    ensures p == |Units(data)| || Units(data)[p] == 0
  {
    p := from;
    while 2 * p + 2 <= |data| && UnitAt(data, p) != 0
      invariant from <= p <= |Units(data)|
      invariant forall k :: from <= k < p ==> Units(data)[k] != 0
    {
      p := p + 1;
    }
  }

  /** One turn of the walk: the string at `cur`, kept if it fits a slot. */
  method LoadOne(data: seq<Byte>, cur: nat, slots: array<Text>, count: nat, limit: nat)
    returns (p: nat, next: nat, ghost x: Text)
    requires 2 * cur + 2 <= |data| && UnitAt(data, cur) != 0 && count < slots.Length
    modifies slots
    ensures cur < p <= |Units(data)| && x != []
    ensures Listed(Units(data)[cur..]) == [x] + Listed(Units(data)[p..])
    ensures next == if |x| < limit then count + 1 else count
    ensures slots[..] == if |x| < limit then old(slots[..])[count := Upcase(x)] else old(slots[..])
  {
    p := ScanString(data, cur);
    var len := p - cur;
    x := Units(data)[cur..p];
    ListedStep(Units(data), cur, p);
    CopiedUnits(data, cur, p);
    if 2 * p + 2 <= |data| {
      p := p + 1;
    }
    next := count;
    if len < limit {
      slots[count] := Upcase(Units(data[2 * cur..2 * (cur + len)]));
      next := count + 1;
    }
  }

  /** RbfLoadConfig's walk over one MULTI_SZ value into a table of fixed size. Every read is of a unit that
      lies wholly within the data. */
  method LoadList(data: seq<Byte>, slots: array<Text>, limit: nat) returns (count: nat)
    modifies slots
    ensures count <= slots.Length
    ensures slots[..count] == UpcaseAll(Chosen(Listed(Units(data)), limit, slots.Length))
    ensures slots[count..] == old(slots[count..])
  {
    var p := 0;
    count := 0;
    ghost var u, start := Units(data), slots[..];
    assert u[p..] == u;
    while 2 * p + 2 <= |data| && UnitAt(data, p) != 0 && count < slots.Length
      invariant 0 <= p <= |u| && 0 <= count <= slots.Length
      invariant Loaded(start, slots[..], count, u, u[p..], limit)
      decreases |u| - p
    {
      ghost var before, was := slots[..], count;
      ghost var x;
      p, count, x := LoadOne(data, p, slots, count, limit);
      LoadedStep(start, before, slots[..], was, count, u, x, Listed(u[p..]), limit);
    }
    LoadedAll(start, slots[..], count, u, p, limit);
  }

  /** What the slots hold when the walk has `rest` strings to go. */
  ghost predicate Loading(start: seq<Text>, slots: seq<Text>, count: nat, u: Text, rest: seq<Text>, limit: nat) {
    && |slots| == |start| && count <= |start| && slots[count..] == start[count..]
    && UpcaseAll(Chosen(Listed(u), limit, |start|)) == slots[..count] + UpcaseAll(Chosen(rest, limit, |start| - count))
  }

  ghost predicate Loaded(start: seq<Text>, slots: seq<Text>, count: nat, u: Text, tail: Text, limit: nat) {
    Loading(start, slots, count, u, Listed(tail), limit)
  }

  lemma LoadedStep(start: seq<Text>, before: seq<Text>, after: seq<Text>, was: nat, count: nat,
                   u: Text, x: Text, rest: seq<Text>, limit: nat)
    requires was < |start| && x != [] && Loading(start, before, was, u, [x] + rest, limit)
    requires count == if |x| < limit then was + 1 else was
    requires after == if |x| < limit then before[was := Upcase(x)] else before
    ensures Loading(start, after, count, u, rest, limit)
  {
    ChosenStep(x, rest, limit, |start| - was);
    if |x| < limit {
      SlotFilled(before, was, Upcase(x), UpcaseAll(Chosen(rest, limit, |start| - count)));
    }
  }

  lemma SlotFilled(before: seq<Text>, at: nat, t: Text, left: seq<Text>)
    requires at < |before|
    ensures before[at := t][..at + 1] + left == before[..at] + ([t] + left)
    ensures before[at := t][at + 1..] == before[at + 1..]
  {
  }

  lemma LoadedAll(start: seq<Text>, slots: seq<Text>, count: nat, u: Text, p: nat, limit: nat)
    requires p <= |u| && Loaded(start, slots, count, u, u[p..], limit)
    requires p == |u| || u[p] == 0 || count == |start|
    ensures slots[..count] == UpcaseAll(Chosen(Listed(u), limit, |start|)) && slots[count..] == start[count..]
  {
    EndOfList(u, p, limit, |start| - count);
  }

  lemma EndOfList(u: Text, p: nat, limit: nat, room: nat)
    requires p <= |u| && (p == |u| || u[p] == 0 || room == 0)
    ensures Chosen(Listed(u[p..]), limit, room) == []
  {
    if p == |u| || u[p] == 0 {
      assert Pieces(u[p..])[0] == [];
    }
  }

  lemma CopiedUnits(data: seq<Byte>, from: nat, to: nat)
    requires from <= to <= |Units(data)|
    ensures Units(data[2 * from..2 * to]) == Units(data)[from..to]
  {
  }

  lemma ChosenStep(x: Text, rest: seq<Text>, limit: nat, max: nat)
    requires x != [] && max > 0
    ensures UpcaseAll(Chosen([x] + rest, limit, max)) ==
            if |x| < limit then [Upcase(x)] + UpcaseAll(Chosen(rest, limit, max - 1))
            else UpcaseAll(Chosen(rest, limit, max))
  {
    assert ([x] + rest)[1..] == rest;
  }

  lemma ListedStep(u: Text, cur: nat, end: nat)
    requires cur < end <= |u| && (forall k :: cur <= k < end ==> u[k] != 0) && (end == |u| || u[end] == 0)
    ensures Listed(u[cur..]) == [u[cur..end]] + Listed(if end < |u| then u[end + 1..] else u[end..])
  {
    PiecesStep(u[cur..], end - cur);
    var pieces := Pieces(u[cur..]);
    assert pieces[0] == u[cur..end];
    if end < |u| {
      assert u[cur..][end - cur + 1..] == u[end + 1..];
    } else {
      assert u[end..] == [] && Pieces([])[0] == [];
      assert pieces[1..] == [] && Listed([]) == [];
      assert Strings(pieces) == [pieces[0]] + Strings([]);
    }
  }

  lemma {:induction false} PiecesStep(u: Text, n: nat)
    requires n <= |u| && (forall k :: 0 <= k < n ==> u[k] != 0) && (n == |u| || u[n] == 0)
    ensures Pieces(u)[0] == u[..n]
    ensures Pieces(u)[1..] == if n < |u| then Pieces(u[n + 1..]) else []
  {
    if n > 0 {
      PiecesStep(u[1..], n - 1);
      if n < |u| {
        assert u[1..][n..] == u[n + 1..];
      }
    }
  }

  // ------------------------------------------------------------------ what the walk returns

  predicate Plain(t: Text) {
    t != [] && forall k :: 0 <= k < |t| ==> t[k] != 0
  }

  /** The encoding of a list: every string followed by a NUL, and one NUL more. */
  function Joined(list: seq<Text>): Text {
    if list == [] then [] else list[0] + [0] + Joined(list[1..])
  }

  /** Decoding an encoded list gives the list back, whatever follows the end mark, ... */
  lemma {:induction false} DecodesJoined(list: seq<Text>, tail: Text)
    requires (forall i :: 0 <= i < |list| ==> Plain(list[i])) && (tail == [] || tail[0] == 0)
    ensures Listed(Joined(list) + tail) == list
  {
    if list == [] {
      assert Joined(list) + tail == tail;
      assert Pieces(tail)[0] == [];
    } else {
      var more := Joined(list[1..]) + tail;
      assert Joined(list) + tail == list[0] + [0] + more;
      ListedHead(list[0], more);
      DecodesJoined(list[1..], tail);
    }
  }

  lemma ListedHead(x: Text, more: Text)
    requires Plain(x)
    ensures Listed(x + [0] + more) == [x] + Listed(more)
  {
    var u := x + [0] + more;
    ListedStep(u, 0, |x|);
    assert u[0..] == u && u[0..|x|] == x && u[|x| + 1..] == more;
  }

  /** ... and even when the last string has lost its NUL. */
  lemma {:induction false} DecodesUnterminated(list: seq<Text>, last: Text)
    requires (forall i :: 0 <= i < |list| ==> Plain(list[i])) && Plain(last)
    ensures Listed(Joined(list) + last) == list + [last]
  {
    var u := Joined(list) + last;
    if list == [] {
      assert u == last && u[0..] == u && u[0..|u|] == last;
      ListedStep(u, 0, |u|);
      assert u[|u|..] == [] && Pieces([])[0] == [];
      assert Listed(u[|u|..]) == [];
      assert list + [last] == [last];
    } else {
      var more := Joined(list[1..]) + last;
      assert u == list[0] + [0] + more;
      ListedHead(list[0], more);
      DecodesUnterminated(list[1..], last);
      assert [list[0]] + (list[1..] + [last]) == list + [last];
    }
  }

  lemma {:induction false} ChosenOfShort(list: seq<Text>, limit: nat, max: nat)
    requires |list| <= max && forall i :: 0 <= i < |list| ==> |list[i]| < limit
    ensures Chosen(list, limit, max) == list
  {
    if list != [] {
      ChosenOfShort(list[1..], limit, max - 1);
    }
  }

  lemma UnitsCons(low: Byte, high: Byte, b: seq<Byte>)
    ensures Units([low, high] + b) == [Pair(low, high)] + Units(b)
  {
    var c := [low, high] + b;
    forall i | 0 <= i < |Units(b)| ensures Units(c)[i + 1] == Units(b)[i] {
      assert c[2 * i + 2] == b[2 * i] && c[2 * i + 3] == b[2 * i + 1];
    }
  }

  function Encode(text: Text): (b: seq<Byte>)
    ensures |b| == 2 * |text|
    ensures Units(b) == text
  {
    if text == [] then []
    else
      var low, high := text[0] % 0x100, text[0] / 0x100;
      UnitsCons(low, high, Encode(text[1..]));
      [low, high] + Encode(text[1..])
  }

  /** A list of at most `max` plain strings below the limit survives encoding and loading, upper-cased. */
  lemma LoadsWhatWasEncoded(list: seq<Text>, limit: nat, max: nat)
    requires |list| <= max && forall i :: 0 <= i < |list| ==> Plain(list[i]) && |list[i]| < limit
    ensures UpcaseAll(Chosen(Listed(Units(Encode(Joined(list) + [0]))), limit, max)) == UpcaseAll(list)
  {
    DecodesJoined(list, [0]);
    ChosenOfShort(list, limit, max);
  }

  // ------------------------------------------------------------------ the service's walk

  /** Position of the first NUL at or after `p`, or the length. */
  function NulFrom(u: Text, p: nat): (q: nat)
    requires p <= |u|
    ensures p <= q <= |u| && (q == |u| || u[q] == 0)
    ensures forall k :: p <= k < q ==> u[k] != 0
    decreases |u| - p
  {
    if p == |u| || u[p] == 0 then p else NulFrom(u, p + 1)
  }

  /** RegReadMultiSz from position `p`: from string to string until an empty one, with no bound. None when
      the walk would leave the data. */
  function WalkFrom(u: Text, p: nat): Option<seq<Text>>
    requires p <= |u|
    decreases |u| - p
  {
    if p == |u| then None
    else if u[p] == 0 then Some([])
    else
      var q := NulFrom(u, p);
      if q == |u| then None
      else
        var rest := WalkFrom(u, q + 1);
        if rest.None? then None else Some([u[p..q]] + rest.value)
  }

  method NextNul(u: Text, p: nat) returns (q: nat)
    requires p <= |u|
    ensures q == NulFrom(u, p)
  {
    q := p;
    while q < |u| && u[q] != 0
      invariant p <= q <= |u| && NulFrom(u, p) == NulFrom(u, q)
    {
      q := q + 1;
    }
  }

  method CountStrings(u: Text) returns (count: Option<nat>)
    ensures count.Some? <==> WalkFrom(u, 0).Some?
    ensures count.Some? ==> count.value == |WalkFrom(u, 0).value|
  {
    var p, n := 0, 0;
    while p < |u| && u[p] != 0
      invariant p <= |u|
      invariant WalkFrom(u, 0).Some? <==> WalkFrom(u, p).Some?
      invariant WalkFrom(u, 0).Some? ==> |WalkFrom(u, 0).value| == n + |WalkFrom(u, p).value|
    {
      var q := NextNul(u, p);
      if q == |u| {
        return None;
      }
      n, p := n + 1, q + 1;
    }
    count := if p == |u| then None else Some(n);
  }

  method CopyStrings(u: Text, count: nat) returns (strings: seq<Text>)
    requires WalkFrom(u, 0).Some? && count == |WalkFrom(u, 0).value|
    ensures strings == WalkFrom(u, 0).value
  {
    strings := [];
    var p := 0;
    for i := 0 to count
      invariant 0 <= p <= |u| && WalkFrom(u, p).Some? && |WalkFrom(u, p).value| == count - i
      invariant WalkFrom(u, 0).value == strings + WalkFrom(u, p).value
    {
      var q := NextNul(u, p);
      AppendOne(strings, u[p..q], WalkFrom(u, q + 1).value);
      strings, p := strings + [u[p..q]], q + 1;
    }
  }

  lemma AppendOne(a: seq<Text>, x: Text, b: seq<Text>)
    ensures a + ([x] + b) == (a + [x]) + b
  {
  }

  /** RegReadMultiSz: count the strings, then copy them. */
  method ReadList(u: Text) returns (list: Option<seq<Text>>)
    ensures list == WalkFrom(u, 0)
  {
    var count := CountStrings(u);
    if count.None? {
      return None;
    }
    var strings := CopyStrings(u, count.value);
    list := Some(strings);
  }

  /** An end mark follows: a NUL right here, or two in a row later. */
  ghost predicate Terminated(u: Text, p: nat)
    requires p <= |u|
  {
    (p < |u| && u[p] == 0) || exists k :: p <= k < |u| - 1 && u[k] == 0 && u[k + 1] == 0
  }

  /** The service reads the same list as the driver does before its cap and filter, and stays within the
      data exactly when the end mark is present. */
  lemma {:induction false} ServiceAgrees(u: Text, p: nat)
    requires p <= |u|
    ensures WalkFrom(u, p).Some? <==> Terminated(u, p)
    ensures WalkFrom(u, p).Some? ==> WalkFrom(u, p).value == Listed(u[p..])
    decreases |u| - p
  {
    if p < |u| {
      if u[p] == 0 {
        assert Pieces(u[p..])[0] == [];
      } else {
        var q := NulFrom(u, p);
        if q < |u| {
          ServiceAgrees(u, q + 1);
          ListedStep(u, p, q);
          TerminatedLater(u, p, q);
        } else {
          assert !Terminated(u, p);
        }
      }
    }
  }

  lemma TerminatedLater(u: Text, p: nat, q: nat)
    requires p < q < |u| && (forall k :: p <= k < q ==> u[k] != 0) && u[q] == 0
    ensures Terminated(u, p) <==> Terminated(u, q + 1)
  {
    if q + 1 < |u| && u[q + 1] == 0 {
      assert u[q] == 0 && u[q + 1] == 0;
    }
  }
}
