/**
 The notification record: how the driver lays it out and fills it over one buffer, how both sides
 validate it, and what the service decodes. Bytes are little-endian; text is UTF-16 code units.
 */
module Wire {
  import opened Common

  type Byte = x: int | 0 <= x < 0x100 witness 0
  type Unit = x: int | 0 <= x < 0x10000 witness 0

  const MAX_NAME: nat := 256
  const HEADER: nat := 48
  const MAGIC: nat := 0x52424654
  const NOTIFY_MAX_SIZE: nat := HEADER + (MAX_PATH + MAX_PATH + MAX_NAME) * 2

  // ------------------------------------------------------------------ bytes

  function Word(b: seq<Byte>): nat
    requires |b| == 4
  {
    (b[0] as int) + 0x100 * (b[1] as int) + 0x10000 * (b[2] as int) + 0x1000000 * (b[3] as int)
  }

  function Pair(low: Byte, high: Byte): Unit {
    (low as int) + 0x100 * (high as int)
  }

  function Bytes32(v: nat): (b: seq<Byte>)
    ensures |b| == 4
    ensures v < 0x1_0000_0000 ==> Word(b) == v
  {
    var v1 := v / 0x100;
    var v2 := v1 / 0x100;
    var v3 := v2 / 0x100;
    [v % 0x100, v1 % 0x100, v2 % 0x100, v3 % 0x100]
  }

  function Slice(s: seq<Byte>, o: nat, n: nat): (t: seq<Byte>)
    requires o + n <= |s|
    ensures |t| == n
  {
    s[o..o + n]
  }

  function Splice(s: seq<Byte>, o: nat, t: seq<Byte>): (r: seq<Byte>)
    requires o + |t| <= |s|
    ensures |r| == |s|
    ensures Slice(r, o, |t|) == t
  {
    s[..o] + t + s[o + |t|..]
  }

  lemma SpliceElsewhere(s: seq<Byte>, o: nat, t: seq<Byte>, i: nat, n: nat)
    requires o + |t| <= |s| && i + n <= |s| && (i + n <= o || o + |t| <= i)
    ensures Slice(Splice(s, o, t), i, n) == Slice(s, i, n)
  {
  }

  // ------------------------------------------------------------------ layout

  datatype Field = Path | Store | Sid

  function OffsetSlot(f: Field): nat {
    match f case Path => 8 case Store => 16 case Sid => 24
  }

  function LengthSlot(f: Field): nat {
    OffsetSlot(f) + 4
  }

  /** Capacities of the three payload areas in bytes, each with room for its NUL. */
  datatype Areas = Areas(path: nat, store: nat, sid: nat) {
    predicate Ok() {
      && 2 <= path <= MAX_PATH * 2 && 2 <= store <= MAX_PATH * 2 && 2 <= sid <= MAX_NAME * 2
      && path % 2 == 0 && store % 2 == 0 && sid % 2 == 0
    }

    function Start(f: Field): nat {
      match f case Path => HEADER case Store => HEADER + path case Sid => HEADER + path + store
    }

    function Capacity(f: Field): nat {
      match f case Path => path case Store => store case Sid => sid
    }

    function Total(): nat {
      HEADER + path + store + sid
    }
  }

  /** What RbfAllocNotify turns a requested size into. */
  function Clamp(bytes: nat, limit: nat): nat {
    var b := Min(bytes, limit);
    var c := if b < 2 then 2 else b;
    c - c % 2
  }

  /** The overflow branch of RbfAllocNotify cannot be taken. */
  lemma ClampedSizesFit(pathBytes: nat, storeBytes: nat, sidBytes: nat)
    ensures var a := Areas(Clamp(pathBytes, MAX_PATH * 2), Clamp(storeBytes, MAX_PATH * 2), Clamp(sidBytes, MAX_NAME * 2));
            a.Ok() && a.Total() <= NOTIFY_MAX_SIZE
  {
  }

  /** The three stored payloads, in bytes, without their NULs. */
  datatype Payloads = Payloads(path: seq<Byte>, store: seq<Byte>, sid: seq<Byte>) {
    function Of(f: Field): seq<Byte> {
      match f case Path => path case Store => store case Sid => sid
    }

    function With(f: Field, p: seq<Byte>): Payloads {
      match f
      case Path => this.(path := p)
      case Store => this.(store := p)
      case Sid => this.(sid := p)
    }
  }

  ghost predicate HasLayout(s: seq<Byte>, a: Areas) {
    && a.Ok() && |s| == a.Total()
    && Slice(s, 0, 4) == Bytes32(MAGIC) && Slice(s, 4, 4) == Bytes32(a.Total())
    && Slice(s, 8, 4) == Bytes32(a.Start(Path)) && Slice(s, 16, 4) == Bytes32(a.Start(Store))
    && Slice(s, 24, 4) == Bytes32(a.Start(Sid))
  }

  ghost predicate Holds(s: seq<Byte>, a: Areas, f: Field, p: seq<Byte>)
    requires |s| == a.Total()
  {
    && |p| % 2 == 0 && |p| + 2 <= a.Capacity(f)
    && Slice(s, a.Start(f), |p|) == p && Slice(s, a.Start(f) + |p|, 2) == [0, 0]
    && Slice(s, LengthSlot(f), 4) == Bytes32(|p|)
  }

  /** `s` is a well-formed record with these areas and payloads. */
  ghost predicate Represents(s: seq<Byte>, a: Areas, c: Payloads) {
    HasLayout(s, a) && forall f :: Holds(s, a, f, c.Of(f))
  }

  // ------------------------------------------------------------------ filling

  /** How many bytes of a source string a payload area keeps (RbfNotifySetStr). */
  function Kept(src: Option<seq<Byte>>, capacity: nat): (n: nat)
    requires capacity >= 2
    ensures n % 2 == 0 && n + 2 <= capacity && (src.Some? ==> n <= |src.value|) && (src.None? ==> n == 0)
  {
    if src.None? || |src.value| < 2 then 0
    else
      var n := Min(|src.value|, capacity - 2);
      n - n % 2
  }

  function Payload(src: Option<seq<Byte>>, capacity: nat): seq<Byte>
    requires capacity >= 2
  {
    if src.None? then [] else src.value[..Kept(src, capacity)]
  }

  /** The text and its NUL. */
  function PutText(s: seq<Byte>, start: nat, p: seq<Byte>): (r: seq<Byte>)
    requires start + |p| + 2 <= |s|
    ensures |r| == |s|
  {
    Splice(Splice(s, start, p), start + |p|, [0, 0])
  }

  lemma PutTextHolds(s: seq<Byte>, start: nat, p: seq<Byte>)
    requires start + |p| + 2 <= |s|
    ensures Slice(PutText(s, start, p), start, |p|) == p
    ensures Slice(PutText(s, start, p), start + |p|, 2) == [0, 0]
  {
    SpliceElsewhere(Splice(s, start, p), start + |p|, [0, 0], start, |p|);
  }

  lemma PutTextElsewhere(s: seq<Byte>, start: nat, p: seq<Byte>, i: nat, n: nat)
    requires start + |p| + 2 <= |s| && i + n <= |s| && (i + n <= start || start + |p| + 2 <= i)
    ensures Slice(PutText(s, start, p), i, n) == Slice(s, i, n)
  {
    SpliceElsewhere(s, start, p, i, n);
    SpliceElsewhere(Splice(s, start, p), start + |p|, [0, 0], i, n);
  }

  function SetField(s: seq<Byte>, a: Areas, f: Field, src: Option<seq<Byte>>): (r: seq<Byte>)
    requires a.Ok() && |s| == a.Total()
    ensures |r| == |s|
  {
    var p := Payload(src, a.Capacity(f));
    Splice(PutText(s, a.Start(f), p), LengthSlot(f), Bytes32(|p|))
  }

  /** A setter's writes leave everything outside its own area and length slot alone. */
  lemma SetElsewhere(s: seq<Byte>, a: Areas, f: Field, src: Option<seq<Byte>>, i: nat, n: nat)
    requires a.Ok() && |s| == a.Total() && i + n <= |s|
    requires i + n <= a.Start(f) || a.Start(f) + a.Capacity(f) <= i
    requires i + n <= LengthSlot(f) || LengthSlot(f) + 4 <= i
    ensures Slice(SetField(s, a, f, src), i, n) == Slice(s, i, n)
  {
    var p := Payload(src, a.Capacity(f));
    PutTextElsewhere(s, a.Start(f), p, i, n);
    SpliceElsewhere(PutText(s, a.Start(f), p), LengthSlot(f), Bytes32(|p|), i, n);
  }

  lemma SetHolds(s: seq<Byte>, a: Areas, f: Field, src: Option<seq<Byte>>)
    requires a.Ok() && |s| == a.Total()
    ensures Holds(SetField(s, a, f, src), a, f, Payload(src, a.Capacity(f)))
  {
    var start, p := a.Start(f), Payload(src, a.Capacity(f));
    PutTextHolds(s, start, p);
    SpliceElsewhere(PutText(s, start, p), LengthSlot(f), Bytes32(|p|), start, |p|);
    SpliceElsewhere(PutText(s, start, p), LengthSlot(f), Bytes32(|p|), start + |p|, 2);
  }

  lemma SetLayout(s: seq<Byte>, a: Areas, f: Field, src: Option<seq<Byte>>)
    requires HasLayout(s, a)
    ensures HasLayout(SetField(s, a, f, src), a)
  {
    SetElsewhere(s, a, f, src, 0, 4);
    SetElsewhere(s, a, f, src, 4, 4);
    SetElsewhere(s, a, f, src, 8, 4);
    SetElsewhere(s, a, f, src, 16, 4);
    SetElsewhere(s, a, f, src, 24, 4);
  }

  lemma FieldsApart(a: Areas, f: Field, g: Field)
    requires a.Ok() && f != g
    ensures a.Start(f) + a.Capacity(f) <= a.Start(g) || a.Start(g) + a.Capacity(g) <= a.Start(f)
    ensures LengthSlot(f) + 4 <= LengthSlot(g) || LengthSlot(g) + 4 <= LengthSlot(f)
    ensures LengthSlot(f) + 4 <= a.Start(g) && LengthSlot(g) + 4 <= a.Start(f)
    ensures a.Start(g) + a.Capacity(g) <= a.Total()
  {
  }

  lemma SetKeepsOther(s: seq<Byte>, a: Areas, f: Field, src: Option<seq<Byte>>, g: Field, p: seq<Byte>)
    requires a.Ok() && |s| == a.Total() && g != f && Holds(s, a, g, p)
    ensures Holds(SetField(s, a, f, src), a, g, p)
  {
    FieldsApart(a, f, g);
    SetElsewhere(s, a, f, src, a.Start(g), |p|);
    SetElsewhere(s, a, f, src, a.Start(g) + |p|, 2);
    SetElsewhere(s, a, f, src, LengthSlot(g), 4);
  }

  /** Each setter replaces its own payload and keeps the other two. */
  lemma SetRepresents(s: seq<Byte>, a: Areas, c: Payloads, f: Field, src: Option<seq<Byte>>)
    requires Represents(s, a, c)
    ensures Represents(SetField(s, a, f, src), a, c.With(f, Payload(src, a.Capacity(f))))
  {
    SetLayout(s, a, f, src);
    var next := c.With(f, Payload(src, a.Capacity(f)));
    forall g ensures Holds(SetField(s, a, f, src), a, g, next.Of(g)) {
      if g == f {
        SetHolds(s, a, f, src);
      } else {
        SetKeepsOther(s, a, f, src, g, c.Of(g));
      }
    }
  }

  // ------------------------------------------------------------------ the driver's code

  method Write(note: array<Byte>, o: nat, t: seq<Byte>)
    requires o + |t| <= note.Length
    modifies note
    ensures note[..] == Splice(old(note[..]), o, t)
  {
    var i := 0;
    while i < |t|
      invariant 0 <= i <= |t|
      invariant note[..] == Splice(old(note[..]), o, t[..i])
    {
      note[o + i] := t[i];
      i := i + 1;
      assert note[..] == Splice(old(note[..]), o, t[..i]) by {
        forall k | 0 <= k < note.Length ensures note[..][k] == Splice(old(note[..]), o, t[..i])[k] {
        }
      }
    }
    assert t[..|t|] == t;
  }

  /** RbfAllocNotify; `poolOk` is whether the pool has the memory. */
  method AllocNotify(pathBytes: nat, storeBytes: nat, sidBytes: nat, poolOk: bool)
    returns (note: Option<array<Byte>>, ghost a: Areas)
    ensures note.Some? <==> poolOk
    ensures a == Areas(Clamp(pathBytes, MAX_PATH * 2), Clamp(storeBytes, MAX_PATH * 2), Clamp(sidBytes, MAX_NAME * 2))
    ensures note.Some? ==> fresh(note.value) && note.value.Length <= NOTIFY_MAX_SIZE &&
                           Represents(note.value[..], a, Payloads([], [], []))
  {
    var path, store, sid := Clamp(pathBytes, MAX_PATH * 2), Clamp(storeBytes, MAX_PATH * 2), Clamp(sidBytes, MAX_NAME * 2);
    a := Areas(path, store, sid);
    ClampedSizesFit(pathBytes, storeBytes, sidBytes);
    var total := HEADER + path + store + sid;
    if total > NOTIFY_MAX_SIZE || !poolOk {
      return None, a;
    }
    var n := new Byte[total](_ => 0);
    assert n[..] == Zeros(total);
    WriteHeader(n, Areas(path, store, sid));
    BlankRepresents(a);
    note := Some(n);
  }

  method WriteHeader(n: array<Byte>, a: Areas)
    requires a.Ok() && n.Length == a.Total() && n[..] == Zeros(a.Total())
    modifies n
    ensures n[..] == Blank(a)
  {
    Write(n, 0, Bytes32(MAGIC) + Bytes32(n.Length) + Bytes32(HEADER));
    Write(n, 16, Bytes32(a.Start(Store)));
    Write(n, 24, Bytes32(a.Start(Sid)));
  }

  function Zeros(n: nat): seq<Byte> {
    seq(n, _ => 0)
  }

  /** A new record: zeros, then the header's five non-zero words. */
  function Blank(a: Areas): (r: seq<Byte>)
    requires a.Ok()
    ensures |r| == a.Total()
  {
    var s := Splice(Zeros(a.Total()), 0, Bytes32(MAGIC) + Bytes32(a.Total()) + Bytes32(HEADER));
    Splice(Splice(s, 16, Bytes32(a.Start(Store))), 24, Bytes32(a.Start(Sid)))
  }

  lemma BlankBytes(a: Areas, i: nat, n: nat)
    requires a.Ok() && i + n <= a.Total() && n <= 12
    requires i + n <= 12 || 12 <= i
    requires i + n <= 16 || 20 <= i
    requires i + n <= 24 || 28 <= i
    ensures Slice(Blank(a), i, n) ==
            if i + n <= 12 then (Bytes32(MAGIC) + Bytes32(a.Total()) + Bytes32(HEADER))[i..i + n] else Zeros(n)
  {
    var head := Bytes32(MAGIC) + Bytes32(a.Total()) + Bytes32(HEADER);
    var s := Splice(Zeros(a.Total()), 0, head);
    SpliceElsewhere(s, 16, Bytes32(a.Start(Store)), i, n);
    SpliceElsewhere(Splice(s, 16, Bytes32(a.Start(Store))), 24, Bytes32(a.Start(Sid)), i, n);
    if i + n > 12 {
      SpliceElsewhere(Zeros(a.Total()), 0, head, i, n);
    }
  }

  lemma BlankHolds(a: Areas, f: Field)
    requires a.Ok()
    ensures Holds(Blank(a), a, f, [])
  {
    BlankBytes(a, a.Start(f), 2);
    BlankBytes(a, LengthSlot(f), 4);
  }

  lemma BlankRepresents(a: Areas)
    requires a.Ok()
    ensures Represents(Blank(a), a, Payloads([], [], []))
  {
    BlankBytes(a, 0, 4);
    BlankBytes(a, 4, 4);
    BlankBytes(a, 8, 4);
    var s := Splice(Zeros(a.Total()), 0, Bytes32(MAGIC) + Bytes32(a.Total()) + Bytes32(HEADER));
    SpliceElsewhere(Splice(s, 16, Bytes32(a.Start(Store))), 24, Bytes32(a.Start(Sid)), 16, 4);
    forall f ensures Holds(Blank(a), a, f, []) {
      BlankHolds(a, f);
    }
  }

  /** RbfNotifySetStr: the text, cut to whole units that leave room for the NUL. */
  method SetStr(note: array<Byte>, offset: nat, capacity: nat, src: Option<seq<Byte>>) returns (bytes: nat)
    requires capacity >= 2 && offset + capacity <= note.Length
    modifies note
    ensures bytes == |Payload(src, capacity)|
    ensures note[..] == PutText(old(note[..]), offset, Payload(src, capacity))
  {
    var max := capacity - 2;
    bytes := 0;
    if src.Some? && |src.value| >= 2 {
      bytes := |src.value|;
      if bytes > max {
        bytes := max;
      }
      bytes := bytes - bytes % 2;
    }
    var text := if src.Some? then src.value[..bytes] else [];
    assert text == Payload(src, capacity);
    Write(note, offset, text);
    Write(note, offset + bytes, [0, 0]);
  }

  /** RbfNotifySetPath, RbfNotifySetStorePath and RbfNotifySetSid: the area's bounds come from the
      offsets in the header. */
  method SetString(note: array<Byte>, f: Field, src: Option<seq<Byte>>, ghost a: Areas)
    requires HasLayout(note[..], a)
    modifies note
    ensures note[..] == SetField(old(note[..]), a, f, src)
  {
    var start, end := ReadBounds(note, f, a);
    SetAt(note, start, end - start, f, src, a);
  }

  /** The text and its length word. */
  method SetAt(note: array<Byte>, start: nat, capacity: nat, f: Field, src: Option<seq<Byte>>, ghost a: Areas)
    requires a.Ok() && note.Length == a.Total() && start == a.Start(f) && capacity == a.Capacity(f)
    modifies note
    ensures note[..] == SetField(old(note[..]), a, f, src)
  {
    var bytes := SetStr(note, start, capacity, src);
    Write(note, LengthSlot(f), Bytes32(bytes));
  }

  method ReadBounds(note: array<Byte>, f: Field, ghost a: Areas) returns (start: nat, end: nat)
    requires HasLayout(note[..], a)
    ensures start == a.Start(f) && end == a.Start(f) + a.Capacity(f)
    ensures end <= note.Length && start + 2 <= end && LengthSlot(f) + 4 <= note.Length
  {
    var next := if f == Sid then 4 else OffsetSlot(f) + 8;
    start, end := Word(note[OffsetSlot(f)..OffsetSlot(f) + 4]), Word(note[next..next + 4]);
    assert note[OffsetSlot(f)..OffsetSlot(f) + 4] == Slice(note[..], OffsetSlot(f), 4);
    assert note[next..next + 4] == Slice(note[..], next, 4);
  }

  // ------------------------------------------------------------------ validation and decoding

  /** RbfQueueNotify's check. */
  predicate QueueAccepts(s: seq<Byte>) {
    |s| >= 8 && Word(s[0..4]) == MAGIC && HEADER <= Word(s[4..8]) <= NOTIFY_MAX_SIZE
  }

  /** PortHandleMessage's check of a receive buffer of which `avail` bytes are reported valid. */
  predicate PortAccepts(buffer: seq<Byte>, avail: nat) {
    |buffer| >= HEADER && avail >= HEADER && Word(buffer[0..4]) == MAGIC && HEADER <= Word(buffer[4..8]) <= avail
  }

  lemma WordIs(b: seq<Byte>, c: seq<Byte>)
    requires |b| == 4 && |c| == 4
    ensures Word(b) == Word(c) <==> b == c
  {
    if Word(b) == Word(c) {
      assert b[0] == c[0] && b[1] == c[1] && b[2] == c[2] && b[3] == c[3];
      assert b == [b[0], b[1], b[2], b[3]] && c == [c[0], c[1], c[2], c[3]];
    }
  }

  /** The service takes a message exactly when at least 48 bytes arrived, they start with "TFBR", and the size
      written after that is at least 48 and no more than arrived; a stale or short buffer is rejected. */
  lemma PortAcceptsOnly(buffer: seq<Byte>, avail: nat)
    ensures PortAccepts(buffer, avail) <==>
            && |buffer| >= 48 && avail >= 48 && buffer[..4] == [0x54, 0x46, 0x42, 0x52]
            && 48 <= (buffer[4] as int) + 256 * (buffer[5] as int) + 65536 * (buffer[6] as int)
                     + 16777216 * (buffer[7] as int) <= avail
  {
    if |buffer| >= 48 {
      WordIs(buffer[0..4], [0x54, 0x46, 0x42, 0x52]);
      assert buffer[0..4] == buffer[..4];
    }
  }

  /** The driver queues a record exactly when it has that mark and a size between 48 and 4656. */
  lemma QueueAcceptsOnly(s: seq<Byte>)
    ensures QueueAccepts(s) <==>
            && |s| >= 8 && s[..4] == [0x54, 0x46, 0x42, 0x52]
            && 48 <= (s[4] as int) + 256 * (s[5] as int) + 65536 * (s[6] as int) + 16777216 * (s[7] as int) <= 4656
  {
    if |s| >= 8 {
      WordIs(s[0..4], [0x54, 0x46, 0x42, 0x52]);
      assert s[0..4] == s[..4];
    }
  }

  function Units(b: seq<Byte>): (u: seq<Unit>)
    ensures |u| == |b| / 2
  {
    seq(|b| / 2, i requires 0 <= i < |b| / 2 => Pair(b[2 * i], b[2 * i + 1]))
  }

  /** A C string up to its NUL. */
  function UpToNul(u: seq<Unit>): seq<Unit> {
    if u == [] || u[0] == 0 then [] else [u[0]] + UpToNul(u[1..])
  }

  /** The NUL-terminated string at byte `o` of the receive buffer; None if it runs off the end. */
  function ReadString(b: seq<Byte>, o: nat): Option<seq<Unit>>
    decreases |b| - o
  {
    if o + 2 > |b| then None
    else
      var u := Pair(b[o], b[o + 1]);
      if u == 0 then Some([])
      else
        var rest := ReadString(b, o + 2);
        if rest.None? then None else Some([u] + rest.value)
  }

  /** Reading a string stays in the buffer exactly when a NUL follows there. */
  lemma {:induction false} ReadsWithin(b: seq<Byte>, o: nat)
    requires o <= |b|
    ensures ReadString(b, o).Some? <==> 0 in Units(b[o..])
    decreases |b| - o
  {
    var u := Units(b[o..]);
    if o + 2 <= |b| {
      ReadsWithin(b, o + 2);
      assert u[0] == Pair(b[o], b[o + 1]);
      assert u[1..] == Units(b[o + 2..]);
      assert u == [u[0]] + u[1..];
    }
  }

  /** What the service reads through the accessor for field `f`. */
  function Decode(buffer: seq<Byte>, f: Field): Option<seq<Unit>>
    requires |buffer| >= HEADER
  {
    ReadString(buffer, Word(buffer[OffsetSlot(f)..OffsetSlot(f) + 4]))
  }

  lemma {:induction false} ReadStringIs(b: seq<Byte>, o: nat, p: seq<Byte>)
    requires |p| % 2 == 0 && o + |p| + 2 <= |b|
    requires b[o..o + |p|] == p && b[o + |p|..o + |p| + 2] == [0, 0]
    ensures ReadString(b, o) == Some(UpToNul(Units(p)))
    decreases |p|
  {
    if p == [] {
      assert b[o] == b[o..o + 2][0] && b[o + 1] == b[o..o + 2][1];
    } else {
      assert b[o] == p[0] && b[o + 1] == p[1];
      assert b[o + 2..o + |p|] == p[2..];
      ReadStringIs(b, o + 2, p[2..]);
      assert Units(p)[1..] == Units(p[2..]);
    }
  }

  /** Every well-formed record passes both checks, whether or not the service knows how much arrived. */
  lemma RecordAccepted(s: seq<Byte>, a: Areas, c: Payloads, rest: seq<Byte>, avail: nat)
    requires Represents(s, a, c) && (avail == |s| || avail == NOTIFY_MAX_SIZE)
    ensures QueueAccepts(s) && PortAccepts(s + rest, avail) && |s| <= NOTIFY_MAX_SIZE
  {
    var b := s + rest;
    PrefixSlice(s, rest, 0, 4);
    PrefixSlice(s, rest, 4, 4);
    assert s[0..4] == Slice(s, 0, 4) && s[4..8] == Slice(s, 4, 4);
  }

  lemma PrefixSlice(s: seq<Byte>, rest: seq<Byte>, o: nat, n: nat)
    requires o + n <= |s|
    ensures (s + rest)[o..o + n] == Slice(s, o, n)
  {
  }

  lemma OffsetArrives(s: seq<Byte>, a: Areas, rest: seq<Byte>, f: Field)
    requires HasLayout(s, a)
    ensures Word((s + rest)[OffsetSlot(f)..OffsetSlot(f) + 4]) == a.Start(f)
  {
    var o := OffsetSlot(f);
    assert o + 4 <= HEADER <= |s|;
    PrefixSlice(s, rest, o, 4);
  }

  lemma PayloadArrives(s: seq<Byte>, a: Areas, rest: seq<Byte>, f: Field, p: seq<Byte>)
    requires a.Ok() && |s| == a.Total() && Holds(s, a, f, p)
    ensures ReadString(s + rest, a.Start(f)) == Some(UpToNul(Units(p)))
  {
    var b, o := s + rest, a.Start(f);
    PrefixSlice(s, rest, o, |p|);
    PrefixSlice(s, rest, o + |p|, 2);
    ReadStringIs(b, o, p);
  }

  /** And it decodes to its payloads, whatever follows it in the receive buffer. */
  lemma RecordDecodes(s: seq<Byte>, a: Areas, c: Payloads, rest: seq<Byte>, f: Field)
    requires Represents(s, a, c)
    ensures Decode(s + rest, f) == Some(UpToNul(Units(c.Of(f))))
  {
    OffsetArrives(s, a, rest, f);
    PayloadArrives(s, a, rest, f, c.Of(f));
  }

  // ------------------------------------------------------------------ any order of setter calls

  datatype Call = Call(field: Field, src: Option<seq<Byte>>)

  ghost function SetAll(s: seq<Byte>, a: Areas, calls: seq<Call>): (r: seq<Byte>)
    requires HasLayout(s, a)
    ensures HasLayout(r, a)
    decreases |calls|
  {
    if calls == [] then s
    else
      var t := SetAll(s, a, calls[..|calls| - 1]);
      var k := calls[|calls| - 1];
      SetLayout(t, a, k.field, k.src);
      SetField(t, a, k.field, k.src)
  }

  /** The last string given for a field. */
  function LastFor(calls: seq<Call>, f: Field): Option<seq<Byte>> {
    if calls == [] then None
    else if calls[|calls| - 1].field == f then calls[|calls| - 1].src
    else LastFor(calls[..|calls| - 1], f)
  }

  function Last(a: Areas, calls: seq<Call>): Payloads
    requires a.Ok()
  {
    Payloads(Payload(LastFor(calls, Path), a.path), Payload(LastFor(calls, Store), a.store),
             Payload(LastFor(calls, Sid), a.sid))
  }

  /** Whatever setters run, in whatever order and however often, each field ends with the last string it
      was given, truncated to its area. */
  lemma {:induction false} AnyOrderWorks(s: seq<Byte>, a: Areas, calls: seq<Call>)
    requires Represents(s, a, Payloads([], [], []))
    ensures Represents(SetAll(s, a, calls), a, Last(a, calls))
    decreases |calls|
  {
    if calls != [] {
      var k := calls[|calls| - 1];
      var earlier := calls[..|calls| - 1];
      AnyOrderWorks(s, a, earlier);
      SetRepresents(SetAll(s, a, earlier), a, Last(a, earlier), k.field, k.src);
    }
  }

  // ------------------------------------------------------------------ what survives the trip

  /** A UNICODE_STRING's buffer: whole units. */
  type Utf16 = s: seq<Byte> | |s| % 2 == 0

  lemma UnitsOfPrefix(b: seq<Byte>, n: nat)
    requires n <= |b| && n % 2 == 0
    ensures Units(b[..n]) == Units(b)[..n / 2]
  {
  }

  lemma ClampOfWhole(units: nat, limit: nat)
    requires limit >= 1
    ensures Clamp(2 * units + 2, limit * 2) == 2 * Min(units + 1, limit)
  {
    assert 2 * (units + 1) % 2 == 0 && 2 * limit % 2 == 0;
  }

  lemma KeptOfWhole(text: Utf16, room: nat)
    requires room >= 1
    ensures Kept(Some(text), 2 * room) == 2 * Min(|text| / 2, room - 1)
  {
    assert 2 * Min(|text| / 2, room - 1) % 2 == 0;
  }

  lemma PayloadUnits(text: Utf16, room: nat)
    requires room >= 1
    ensures Units(Payload(Some(text), 2 * room)) == Units(text)[..Min(|text| / 2, room - 1)]
  {
    KeptOfWhole(text, room);
    UnitsOfPrefix(text, 2 * Min(|text| / 2, room - 1));
  }

  /** The driver sizes each area for its string plus NUL; the string arrives cut to the area's limit of
      units, less one for the NUL. */
  lemma StringArrives(text: Utf16, limit: nat)
    requires limit >= 1
    ensures Units(Payload(Some(text), Clamp(|text| + 2, limit * 2))) == Units(text)[..Min(|text| / 2, limit - 1)]
  {
    ClampOfWhole(|text| / 2, limit);
    PayloadUnits(text, Min(|text| / 2 + 1, limit));
  }

  function Limit(f: Field): nat {
    if f == Sid then MAX_NAME else MAX_PATH
  }

  function TextFor(path: Utf16, store: Utf16, sid: Utf16, f: Field): Utf16 {
    match f case Path => path case Store => store case Sid => sid
  }

  /** The areas the driver asks for to carry these three strings. */
  function AreasFor(path: Utf16, store: Utf16, sid: Utf16): (a: Areas)
    ensures a.Ok()
  {
    ClampedSizesFit(|path| + 2, |store| + 2, |sid| + 2);
    Areas(Clamp(|path| + 2, MAX_PATH * 2), Clamp(|store| + 2, MAX_PATH * 2), Clamp(|sid| + 2, MAX_NAME * 2))
  }

  lemma CapacityFor(path: Utf16, store: Utf16, sid: Utf16, f: Field)
    ensures AreasFor(path, store, sid).Capacity(f) == Clamp(|TextFor(path, store, sid, f)| + 2, Limit(f) * 2)
  {
  }

  lemma LastDecodes(blank: seq<Byte>, a: Areas, calls: seq<Call>, rest: seq<Byte>, f: Field)
    requires Represents(blank, a, Payloads([], [], []))
    ensures Decode(SetAll(blank, a, calls) + rest, f) == Some(UpToNul(Units(Payload(LastFor(calls, f), a.Capacity(f)))))
  {
    AnyOrderWorks(blank, a, calls);
    RecordDecodes(SetAll(blank, a, calls), a, Last(a, calls), rest, f);
    LastIs(a, calls, f);
  }

  /** The whole trip: a record sized for three strings and filled by any setter calls that end with those
      strings decodes to each string, cut to its limit and at its first NUL. */
  lemma RoundTrip(blank: seq<Byte>, path: Utf16, store: Utf16, sid: Utf16, calls: seq<Call>, rest: seq<Byte>, f: Field)
    requires Represents(blank, AreasFor(path, store, sid), Payloads([], [], []))
    requires LastFor(calls, f) == Some(TextFor(path, store, sid, f))
    ensures var t := TextFor(path, store, sid, f);
            Decode(SetAll(blank, AreasFor(path, store, sid), calls) + rest, f)
            == Some(UpToNul(Units(t)[..Min(|t| / 2, Limit(f) - 1)]))
  {
    LastDecodes(blank, AreasFor(path, store, sid), calls, rest, f);
    CapacityFor(path, store, sid, f);
    StringArrives(TextFor(path, store, sid, f), Limit(f));
  }

  /** ... and both sides accept it on the way. */
  lemma RoundTripAccepted(blank: seq<Byte>, a: Areas, calls: seq<Call>, rest: seq<Byte>)
    requires Represents(blank, a, Payloads([], [], []))
    ensures var s := SetAll(blank, a, calls);
            QueueAccepts(s) && PortAccepts(s + rest, |s|) && PortAccepts(s + rest, NOTIFY_MAX_SIZE)
  {
    AnyOrderWorks(blank, a, calls);
    var s := SetAll(blank, a, calls);
    RecordAccepted(s, a, Last(a, calls), rest, |s|);
    RecordAccepted(s, a, Last(a, calls), rest, NOTIFY_MAX_SIZE);
  }

  lemma LastIs(a: Areas, calls: seq<Call>, f: Field)
    requires a.Ok()
    ensures Last(a, calls).Of(f) == Payload(LastFor(calls, f), a.Capacity(f))
  {
  }

  lemma {:induction false} UpToNulKeeps(u: seq<Unit>)
    ensures |UpToNul(u)| <= |u|
    ensures UpToNul(u) == u <==> 0 !in u
  {
    if u != [] {
      UpToNulKeeps(u[1..]);
      assert u == [u[0]] + u[1..];
    }
  }

  /** What comes before the first NUL. */
  lemma {:induction false} UpToNulIs(u: seq<Unit>, n: nat)
    requires n <= |u| && 0 !in u[..n] && (n == |u| || u[n] == 0)
    ensures UpToNul(u) == u[..n]
  {
    if n > 0 {
      assert u[0] == u[..n][0] && u[1..][..n - 1] == u[..n][1..];
      UpToNulIs(u[1..], n - 1);
      assert u[..n] == [u[0]] + u[..n][1..];
    }
  }

  /** A path arrives unchanged exactly when it has no NUL and fewer than RBF_MAX_PATH units; a longer
      original path is cut. */
  lemma PathArrivesIntact(text: Utf16)
    ensures UpToNul(Units(Payload(Some(text), Clamp(|text| + 2, MAX_PATH * 2)))) == Units(text)
            <==> |text| / 2 < MAX_PATH && 0 !in Units(text)
  {
    StringArrives(text, MAX_PATH);
    var arrived := Units(text)[..Min(|text| / 2, MAX_PATH - 1)];
    UpToNulKeeps(arrived);
    if |text| / 2 < MAX_PATH {
      assert arrived == Units(text);
    }
  }

  /** DbAddItem's SID: one leading '\' dropped, then at most RBF_MAX_NAME - 1 units copied. */
  function StoredSid(u: seq<Unit>): seq<Unit> {
    var raw := if u != [] && u[0] == '\\' as int then u[1..] else u;
    raw[..Min(|raw|, MAX_NAME - 1)]
  }

  /** The copy never truncates a SID that fitted in the record, so the row holds it without its '\'. */
  lemma SidArrives(text: Utf16)
    requires 2 <= |text| < 2 * MAX_NAME && 0 !in Units(text) && Units(text)[0] == '\\' as int
    ensures StoredSid(UpToNul(Units(Payload(Some(text), Clamp(|text| + 2, MAX_NAME * 2))))) == Units(text)[1..]
  {
    StringArrives(text, MAX_NAME);
    assert Units(text)[..Min(|text| / 2, MAX_NAME - 1)] == Units(text);
    UpToNulKeeps(Units(text));
  }

  /** A SID without the mark is stored whole. */
  lemma UnmarkedSidArrives(text: Utf16)
    requires 2 <= |text| < 2 * MAX_NAME && 0 !in Units(text) && Units(text)[0] != '\\' as int
    ensures StoredSid(UpToNul(Units(Payload(Some(text), Clamp(|text| + 2, MAX_NAME * 2))))) == Units(text)
  {
    StringArrives(text, MAX_NAME);
    assert Units(text)[..Min(|text| / 2, MAX_NAME - 1)] == Units(text);
    UpToNulKeeps(Units(text));
  }
}
