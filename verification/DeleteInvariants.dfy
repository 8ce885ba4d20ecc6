/** Inductive invariants of the delete machine, one predicate per concern, each preserved by every step. */
module DeleteInvariants {
  import opened Common
  import opened DriverQueue
  import opened DeleteMachine
  import Paths

  // ------------------------------------------------------------------ phases of a callback

  /** A queue slot is reserved and not yet consumed. */
  predicate HoldsSlot(pc: Pc) {
    pc.Holding? || pc.RenameRefused? || pc.BackingOut? || pc.Renamed? || pc.CountedRename? ||
    HoldsNote(pc) || pc.Dropping?
  }

  predicate HoldsNote(pc: Pc) {
    pc.Noted? || pc.SawActive? || pc.Snapped? || pc.Ready?
  }

  predicate HandedOver(pc: Pc) {
    pc.Inserted? || pc == Done(Success)
  }

  /** Between counting a rename and the notification's outcome. */
  predicate Pending(pc: Pc) {
    pc.CountedRename? || HoldsNote(pc) || pc.Dropping? || pc.Uncounted?
  }

  /** Between counting an intercept and counting its success or denial. */
  predicate Running(pc: Pc) {
    pc.Intercepted? || pc.NoSlot? || pc.Holding? || pc.RenameRefused? || pc.BackingOut? || pc.Failing? || pc.Renamed?
  }

  predicate PastRename(pc: Pc) {
    pc.Renamed? || Pending(pc) || HandedOver(pc)
  }

  function Num(b: bool): int { if b then 1 else 0 }

  ghost function Members(calls: map<CallId, Call>, p: Pc -> bool): set<CallId> {
    set c | c in calls && p(calls[c].pc)
  }

  ghost function Count(calls: map<CallId, Call>, p: Pc -> bool): nat {
    |Members(calls, p)|
  }

  /** The phase of a callback; one that has not arrived is in none of the phases above. */
  function Phase(calls: map<CallId, Call>, c: CallId): Pc {
    if c in calls then calls[c].pc else Opening
  }

  lemma CountUpdate(calls: map<CallId, Call>, c: CallId, next: map<CallId, Call>, p: Pc -> bool)
    requires c in next && next == calls[c := next[c]] && !p(Opening)
    ensures Count(next, p) == Count(calls, p) - Num(p(Phase(calls, c))) + Num(p(Phase(next, c)))
    ensures p(Phase(calls, c)) ==> Count(calls, p) > 0
  {
    var before, after := Members(calls, p), Members(next, p);
    var others := before - {c};
    assert before == if p(Phase(calls, c)) then others + {c} else others;
    assert after == if p(Phase(next, c)) then others + {c} else others by {
      assert forall d :: d != c ==> (d in after <==> d in others);
    }
  }

  // ------------------------------------------------------------------ what a callback's step changes

  /** The queue gains the callback's node exactly when the callback goes from Ready to Inserted. */
  ghost predicate QueueMove(c: CallId, k: Call, v: Env, r: CallStep) {
    && r.call.file == k.file && r.call.kind == k.kind
    && r.env.active == v.active && r.env.g.clientPort == v.g.clientPort && r.env.g.sending == v.g.sending
    && if k.pc.Ready? && r.call.pc == Inserted then
         && v.g.clientPort == Some(k.pc.port)
         && r.env.g.queue == v.g.queue + [Node(c, k.pc.port)] && r.env.g.depth == v.g.depth + 1
       else r.env.g.queue == v.g.queue && r.env.g.depth == v.g.depth && r.call.pc != Inserted
  }

  ghost predicate SlotMove(cfg: Config, k: Call, v: Env, r: CallStep) {
    && ((HoldsSlot(k.pc) ==> v.g.reserved > 0) ==>
          r.env.g.reserved == v.g.reserved + Num(HoldsSlot(r.call.pc)) - Num(HoldsSlot(k.pc)))
    && (r.env.g.reserved > v.g.reserved ==>
          (if cfg.countQueued then v.g.depth + v.g.reserved else v.g.reserved) < QUEUE_MAX)
  }

  ghost predicate StatsMove(cfg: Config, k: Call, v: Env, r: CallStep) {
    var a, b := v.stats, r.env.stats;
    && b.notifySent == a.notifySent && b.ghostDrained == a.ghostDrained && b.ghostTimedOut == a.ghostTimedOut
    && b.renameOk - b.notifyDropped - |r.env.g.queue| - Num(Pending(r.call.pc)) ==
       a.renameOk - a.notifyDropped - |v.g.queue| - Num(Pending(k.pc))
    && (cfg.failClosed ==>
          b.intercepts + b.ghostLookupDenials - b.renameOk - b.deleteDenied - Num(Running(r.call.pc)) ==
          a.intercepts + a.ghostLookupDenials - a.renameOk - a.deleteDenied - Num(Running(k.pc)))
  }

  ghost predicate MemoryMove(c: CallId, k: Call, v: Env, r: CallStep) {
    var pc := r.call.pc;
    if HoldsNote(k.pc) && pc == Dropping then
      r.env.mem == if k.pc.Ready? then FreeBoth(v.mem, c) else Free(v.mem, NoteOf(c))
    else if k.pc.Ready? then pc == Inserted && r.env.mem == v.mem
    else if pc.Ready? then k.pc.Snapped? && r.env.mem == v.mem.(blocks := v.mem.blocks + {NodeOf(c)})
    else if pc == Noted then !HoldsNote(k.pc) && r.env.mem == v.mem.(blocks := v.mem.blocks + {NoteOf(c)})
    else r.env.mem == v.mem && HoldsNote(pc) == HoldsNote(k.pc)
  }

  /** The file's entry changes with a rename and with a delete that is let through, and not otherwise. */
  ghost predicate FileMove(cfg: Config, c: CallId, k: Call, v: Env, r: CallStep) {
    var pc, f := r.call.pc, k.file;
    && !k.pc.Done?
    && (PastRename(k.pc) ==> PastRename(pc) && pc != Renamed && r.call.within == k.within)
    && (PastRename(pc) && !PastRename(k.pc) ==> pc == Renamed)
    && (if pc == Renamed then Movable(cfg, v, f, c) && r.env.files == Moved(v.files, f, c, r.call.within)
        else if LetThrough(r.call) then r.env.files == Destroy(v, f, c).files
        else r.env.files == v.files)
  }

  /** So does its staged copy. */
  ghost predicate StageMove(cfg: Config, c: CallId, k: Call, v: Env, r: CallStep) {
    var w, pc, f := r.env.world, r.call.pc, k.file;
    if pc == Renamed then
      var x := Leave(v.world, v.files, f, c);
      && c in w.staging && w.staging == x.staging[c := w.staging[c]] && w.taken == x.taken
      && w.staging[c].since == v.world.clock && ContentAllowed(cfg, w.staging[c].since, w.staging[c].content)
      && |cfg.paths(c)| <= MAX_PATH
    else
      var x := if LetThrough(r.call) then Destroy(v, f, c).world else v.world;
      w.staging == x.staging && w.taken == x.taken
  }

  /** Of what concerns the notification, a callback only ever gives one up. */
  ghost predicate NoticeMove(c: CallId, k: Call, v: Env, r: CallStep) {
    var x, w := v.world, r.env.world;
    && w == x.(staging := w.staging, taken := w.taken, orphaned := w.orphaned)
    && w.orphaned == x.orphaned + (if k.pc == Uncounted && r.call.pc == Done(Success) then {c} else {})
  }

  /** The event, and the order of the last phases. */
  ghost predicate EndMove(k: Call, v: Env, r: CallStep) {
    var pc := r.call.pc;
    && (v.event ==> r.env.event)
    && (k.pc == Inserted ==> r.env.event && pc == Done(Success))
    && (pc == Done(Success) ==> k.pc == Inserted || k.pc == Uncounted)
    && (Pending(k.pc) ==> Pending(pc) || HandedOver(pc))
    && (k.pc == Renamed ==> pc == CountedRename)
  }

  /** The driver left a delete to the file system. */
  predicate LetThrough(k: Call) {
    k.pc == Done(PassThrough) && !k.kind.FlagStripped?
  }

  /** What is recorded as the reason for letting a request through is one. */
  predicate Excused(cfg: Config, k: Call) {
    && (k.pc == Opening ==> k.kind.FlagStripped?)
    && (!k.pc.Done? ==> !k.kind.FlagKept?)
    && (k.why != Unasked ==> k.pc == Done(PassThrough))
    && (k.pc == Done(PassThrough) ==>
          && k.why != Unasked
          && (k.why == NotGuarded ==> k.file !in cfg.guarded)
          && (cfg.failClosed ==> k.why != FailedOpen)
          && (k.why == OpenFailed ==> k.kind.FlagStripped?))
  }

  ghost predicate AllExcused(cfg: Config, calls: map<CallId, Call>) {
    forall c :: c in calls ==> Excused(cfg, calls[c])
  }

  /** A request is forwarded as moved when its file is in staging at that moment. */
  ghost predicate ReasonMove(k: Call, v: Env, r: CallStep) {
    r.call.why.AfterMove? ==>
      k.file in v.files && !v.files[k.file].DestroyedBy? && v.files[k.file].call == r.call.why.mover
  }

  ghost predicate CallMove(cfg: Config, c: CallId, k: Call, v: Env, r: CallStep) {
    && QueueMove(c, k, v, r) && SlotMove(cfg, k, v, r) && StatsMove(cfg, k, v, r) && MemoryMove(c, k, v, r)
    && FileMove(cfg, c, k, v, r) && StageMove(cfg, c, k, v, r) && NoticeMove(c, k, v, r) && EndMove(k, v, r)
    && Excused(cfg, r.call) && ReasonMove(k, v, r)
  }

  /** The record of a callback that has not arrived. */
  function Blank(r: CallStep): Call {
    Call(r.call.file, r.call.kind, Opening, Unasked, {})
  }

  lemma NewCounts(cfg: Config, c: CallId, request: Request, v: Env)
    ensures var r := NewStep(cfg, c, request, v);
            QueueMove(c, Blank(r), v, r) && SlotMove(cfg, Blank(r), v, r) && StatsMove(cfg, Blank(r), v, r)
  {
  }

  lemma NewMoves(cfg: Config, c: CallId, request: Request, v: Env)
    ensures var r := NewStep(cfg, c, request, v);
            && MemoryMove(c, Blank(r), v, r) && FileMove(cfg, c, Blank(r), v, r) && NoticeMove(c, Blank(r), v, r)
            && EndMove(Blank(r), v, r)
  {
  }

  lemma NewExcused(cfg: Config, c: CallId, request: Request, v: Env)
    ensures var r := NewStep(cfg, c, request, v);
            Excused(cfg, r.call) && ReasonMove(Blank(r), v, r) && StageMove(cfg, c, Blank(r), v, r)
  {
  }

  lemma ArrivalExcused(cfg: Config, c: CallId, k: Call, v: Env, a: ArrivalAct, r: CallStep)
    requires ArrivalStep(cfg, c, k, v, a) == Some(r) && Excused(cfg, k)
    ensures Excused(cfg, r.call) && ReasonMove(k, v, r) && StageMove(cfg, c, k, v, r)
  {
  }

  lemma StagingExcused(cfg: Config, c: CallId, k: Call, v: Env, a: StagingAct, r: CallStep)
    requires StagingStep(cfg, c, k, v, a) == Some(r) && Excused(cfg, k)
    ensures Excused(cfg, r.call) && ReasonMove(k, v, r) && StageMove(cfg, c, k, v, r)
  {
  }

  lemma NotifyExcused(cfg: Config, c: CallId, k: Call, v: Env, a: NotifyAct, r: CallStep)
    requires NotifyStep(c, k, v, a) == Some(r) && Excused(cfg, k)
    ensures Excused(cfg, r.call) && ReasonMove(k, v, r) && StageMove(cfg, c, k, v, r)
  {
  }

  lemma ArrivalCounts(cfg: Config, c: CallId, k: Call, v: Env, a: ArrivalAct, r: CallStep)
    requires ArrivalStep(cfg, c, k, v, a) == Some(r)
    ensures QueueMove(c, k, v, r) && SlotMove(cfg, k, v, r) && StatsMove(cfg, k, v, r)
  {
  }

  lemma ArrivalMoves(cfg: Config, c: CallId, k: Call, v: Env, a: ArrivalAct, r: CallStep)
    requires ArrivalStep(cfg, c, k, v, a) == Some(r) && Excused(cfg, k)
    ensures MemoryMove(c, k, v, r) && FileMove(cfg, c, k, v, r) && NoticeMove(c, k, v, r) && EndMove(k, v, r)
  {
  }

  lemma StagingCounts(cfg: Config, c: CallId, k: Call, v: Env, a: StagingAct, r: CallStep)
    requires StagingStep(cfg, c, k, v, a) == Some(r)
    ensures StatsMove(cfg, k, v, r)
  {
  }

  lemma StagingSlots(cfg: Config, c: CallId, k: Call, v: Env, a: StagingAct, r: CallStep)
    requires StagingStep(cfg, c, k, v, a) == Some(r)
    ensures QueueMove(c, k, v, r) && SlotMove(cfg, k, v, r)
  {
  }

  lemma StagingMoves(cfg: Config, c: CallId, k: Call, v: Env, a: StagingAct, r: CallStep)
    requires StagingStep(cfg, c, k, v, a) == Some(r) && Excused(cfg, k)
    ensures FileMove(cfg, c, k, v, r)
  {
  }

  lemma StagingEnds(cfg: Config, c: CallId, k: Call, v: Env, a: StagingAct, r: CallStep)
    requires StagingStep(cfg, c, k, v, a) == Some(r)
    ensures MemoryMove(c, k, v, r) && NoticeMove(c, k, v, r) && EndMove(k, v, r)
  {
  }

  lemma NotifyCounts(cfg: Config, c: CallId, k: Call, v: Env, a: NotifyAct, r: CallStep)
    requires NotifyStep(c, k, v, a) == Some(r)
    ensures StatsMove(cfg, k, v, r)
  {
  }

  lemma NotifySlots(cfg: Config, c: CallId, k: Call, v: Env, a: NotifyAct, r: CallStep)
    requires NotifyStep(c, k, v, a) == Some(r)
    ensures QueueMove(c, k, v, r) && SlotMove(cfg, k, v, r)
  {
  }

  lemma NotifyMoves(cfg: Config, c: CallId, k: Call, v: Env, a: NotifyAct, r: CallStep)
    requires NotifyStep(c, k, v, a) == Some(r) && Excused(cfg, k)
    ensures MemoryMove(c, k, v, r) && FileMove(cfg, c, k, v, r) && NoticeMove(c, k, v, r) && EndMove(k, v, r)
  {
  }

  /** Callback `c` goes from `k` (a blank record when it has just arrived) by `r`. */
  ghost predicate Advance(s: State, c: CallId, k: Call, r: CallStep, t: State) {
    && t == s.(env := r.env, calls := s.calls[c := r.call])
    && (if c in s.calls then k == s.calls[c] else k.pc == Opening)
    && r.call.file == k.file
  }

  ghost predicate CallEvent(cfg: Config, s: State, c: CallId, k: Call, r: CallStep, t: State) {
    Advance(s, c, k, r, t) && CallMove(cfg, c, k, s.env, r)
  }

  lemma CallEvents(cfg: Config, s: State, e: Event, t: State) returns (k: Call, r: CallStep)
    requires e.OfNew? || e.OfArrival? || e.OfStaging? || e.OfNotify?
    requires Step(cfg, s, e) == Some(t) && AllExcused(cfg, s.calls)
    ensures CallEvent(cfg, s, e.call, k, r, t)
  {
    var c := e.call;
    if e.OfNew? {
      r := NewStep(cfg, c, e.request, s.env);
      k := Blank(r);
      NewCounts(cfg, c, e.request, s.env);
      NewMoves(cfg, c, e.request, s.env);
      NewExcused(cfg, c, e.request, s.env);
    } else {
      k := s.calls[c];
      r := KnownCallStep(cfg, c, k, s.env, e).value;
      match e {
        case OfArrival(_, a) =>
          ArrivalCounts(cfg, c, k, s.env, a, r);
          ArrivalMoves(cfg, c, k, s.env, a, r);
          ArrivalExcused(cfg, c, k, s.env, a, r);
        case OfStaging(_, a) =>
          StagingCounts(cfg, c, k, s.env, a, r);
          StagingSlots(cfg, c, k, s.env, a, r);
          StagingMoves(cfg, c, k, s.env, a, r);
          StagingEnds(cfg, c, k, s.env, a, r);
          StagingExcused(cfg, c, k, s.env, a, r);
        case OfNotify(_, a) =>
          NotifyCounts(cfg, c, k, s.env, a, r);
          NotifySlots(cfg, c, k, s.env, a, r);
          NotifyMoves(cfg, c, k, s.env, a, r);
          NotifyExcused(cfg, c, k, s.env, a, r);
      }
    }
  }

  // ------------------------------------------------------------------ port and queue

  ghost predicate PortInv(g: Shared, sender: Sender, conn: Conn) {
    && g.depth == |g.queue|
    && (forall n :: n in g.queue ==> g.clientPort == Some(n.port))
    && g.clientPort == (if conn.Open? || conn.Closing? then Some(conn.port) else None)
    && g.sending == (sender.InSend? || sender.Returned? || sender.Counted?)
    && (g.sending ==> g.clientPort == Some(sender.node.port))
  }

  lemma PortKeptByCall(cfg: Config, s: State, c: CallId, k: Call, r: CallStep, t: State)
    requires PortInv(s.env.g, s.sender, s.conn) && CallEvent(cfg, s, c, k, r, t)
    ensures PortInv(t.env.g, t.sender, t.conn)
  {
  }

  lemma PortKeptBySender(sender: Sender, v: Env, a: SendAct, m: SendStep, conn: Conn)
    requires PortInv(v.g, sender, conn) && SenderStep(sender, v, a) == Some(m)
    ensures PortInv(m.env.g, m.sender, conn)
  {
  }

  lemma PortKeptByPort(conn: Conn, v: Env, a: PortAct, m: ConnStep, sender: Sender)
    requires PortInv(v.g, sender, conn) && PortStep(conn, v, a) == Some(m)
    ensures PortInv(m.env.g, sender, m.conn)
  {
  }

  // ------------------------------------------------------------------ reservations

  ghost predicate SlotInv(cfg: Config, g: Shared, calls: map<CallId, Call>) {
    && g.reserved == Count(calls, HoldsSlot)
    && g.reserved <= QUEUE_MAX
    && (cfg.countQueued ==> g.depth + g.reserved <= QUEUE_MAX)
  }

  lemma SlotKeptByCall(cfg: Config, s: State, c: CallId, k: Call, r: CallStep, t: State)
    requires PortInv(s.env.g, s.sender, s.conn) && SlotInv(cfg, s.env.g, s.calls) && CallEvent(cfg, s, c, k, r, t)
    ensures SlotInv(cfg, t.env.g, t.calls)
  {
    CountUpdate(s.calls, c, t.calls, HoldsSlot);
  }

  // ------------------------------------------------------------------ ownership of pool blocks

  /** The node the send thread holds, as a sequence of at most one. */
  function Held(sender: Sender): seq<Node> {
    if sender.InSend? || sender.Returned? || sender.Counted? || sender.Freeing? then [sender.node] else []
  }

  /** Nodes outside any callback: with the send thread, in the queue, or awaiting the disconnect's frees. */
  function Flying(sender: Sender, queue: seq<Node>, conn: Conn): seq<Node> {
    Held(sender) + queue + (if conn.Draining? then conn.dead else [])
  }

  ghost predicate Owned(calls: map<CallId, Call>, flying: seq<Node>, b: Block) {
    match b
    case NoteOf(c) => HoldsNote(Phase(calls, c)) || c in Owners(flying)
    case NodeOf(c) => Phase(calls, c).Ready? || c in Owners(flying)
  }

  ghost predicate Distinct(q: seq<Node>) {
    forall i, j :: 0 <= i < j < |q| ==> q[i].owner != q[j].owner
  }

  ghost predicate HeapInv(mem: Memory, calls: map<CallId, Call>, flying: seq<Node>) {
    && !mem.fault
    && (forall b :: b in mem.blocks <==> Owned(calls, flying, b))
    && Distinct(flying)
    && (forall c :: c in Owners(flying) ==> HandedOver(Phase(calls, c)))
  }

  lemma OwnersWithout(q: seq<Node>, i: nat)
    requires i < |q| && Distinct(q)
    ensures Owners(q[..i] + q[i + 1..]) == Owners(q) - {q[i].owner}
    ensures Distinct(q[..i] + q[i + 1..])
  {
    var r := q[..i] + q[i + 1..];
    assert forall k :: 0 <= k < |r| ==> r[k] == if k < i then q[k] else q[k + 1];
    forall c | c in Owners(q) && c != q[i].owner ensures c in Owners(r) {
      var k :| 0 <= k < |q| && q[k].owner == c;
      assert r[if k < i then k else k - 1] == q[k];
    }
  }

  /** Removing a node and freeing its two blocks keeps ownership exact. */
  lemma FreeingKeeps(mem: Memory, calls: map<CallId, Call>, flying: seq<Node>, i: nat)
    requires HeapInv(mem, calls, flying) && i < |flying|
    ensures HeapInv(FreeBoth(mem, flying[i].owner), calls, flying[..i] + flying[i + 1..])
  {
    var c := flying[i].owner;
    assert c in Owners(flying);
    assert Owned(calls, flying, NoteOf(c)) && Owned(calls, flying, NodeOf(c));
    OwnersWithout(flying, i);
  }

  lemma HeapKeptByInsert(s: State, c: CallId, k: Call, r: CallStep, t: State, flying: seq<Node>)
    requires HeapInv(s.env.mem, s.calls, flying) && Advance(s, c, k, r, t) && MemoryMove(c, k, s.env, r)
    requires k.pc.Ready? && r.call.pc == Inserted
    ensures HeapInv(t.env.mem, t.calls, flying + [Node(c, k.pc.port)])
  {
    assert forall d :: d != c ==> Phase(t.calls, d) == Phase(s.calls, d);
    assert Owned(s.calls, flying, NoteOf(c)) && Owned(s.calls, flying, NodeOf(c));
    assert Owners(flying + [Node(c, k.pc.port)]) == Owners(flying) + {c};
  }

  lemma HeapKeptByOtherCall(s: State, c: CallId, k: Call, r: CallStep, t: State, flying: seq<Node>)
    requires HeapInv(s.env.mem, s.calls, flying) && Advance(s, c, k, r, t) && MemoryMove(c, k, s.env, r)
    requires EndMove(k, s.env, r) && !k.pc.Done? && r.call.pc != Inserted
    ensures HeapInv(t.env.mem, t.calls, flying)
  {
    assert forall d :: d != c ==> Phase(t.calls, d) == Phase(s.calls, d);
    assert HoldsNote(k.pc) ==> Owned(s.calls, flying, NoteOf(c));
    assert k.pc.Ready? ==> Owned(s.calls, flying, NodeOf(c));
  }

  lemma HeapKeptByCall(cfg: Config, s: State, c: CallId, k: Call, r: CallStep, t: State, flying: seq<Node>)
    requires HeapInv(s.env.mem, s.calls, flying) && CallEvent(cfg, s, c, k, r, t)
    ensures var grown := if k.pc.Ready? && r.call.pc == Inserted then flying + [Node(c, k.pc.port)] else flying;
            HeapInv(t.env.mem, t.calls, grown)
  {
    if k.pc.Ready? && r.call.pc == Inserted {
      HeapKeptByInsert(s, c, k, r, t, flying);
    } else {
      HeapKeptByOtherCall(s, c, k, r, t, flying);
    }
  }

  lemma SenderKeepsFlying(sender: Sender, v: Env, a: SendAct, m: SendStep, conn: Conn)
    requires SenderStep(sender, v, a) == Some(m) && !a.FreeSent?
    ensures m.env.mem == v.mem && Flying(m.sender, m.env.g.queue, conn) == Flying(sender, v.g.queue, conn)
  {
    assert Held(m.sender) + m.env.g.queue == Held(sender) + v.g.queue;
  }

  lemma HeapKeptBySender(sender: Sender, v: Env, a: SendAct, m: SendStep, calls: map<CallId, Call>, conn: Conn)
    requires HeapInv(v.mem, calls, Flying(sender, v.g.queue, conn)) && SenderStep(sender, v, a) == Some(m)
    ensures HeapInv(m.env.mem, calls, Flying(m.sender, m.env.g.queue, conn))
  {
    var flying := Flying(sender, v.g.queue, conn);
    if a.FreeSent? {
      FreeingKeeps(v.mem, calls, flying, 0);
      assert Flying(m.sender, m.env.g.queue, conn) == flying[..0] + flying[1..];
    } else {
      SenderKeepsFlying(sender, v, a, m, conn);
    }
  }

  lemma PortKeepsFlying(conn: Conn, v: Env, a: PortAct, m: ConnStep, sender: Sender)
    requires PortStep(conn, v, a) == Some(m) && !a.FreeDead?
    ensures m.env.mem == v.mem && Flying(sender, m.env.g.queue, m.conn) == Flying(sender, v.g.queue, conn)
  {
  }

  lemma HeapKeptByPort(conn: Conn, v: Env, a: PortAct, m: ConnStep, calls: map<CallId, Call>, sender: Sender)
    requires HeapInv(v.mem, calls, Flying(sender, v.g.queue, conn)) && PortStep(conn, v, a) == Some(m)
    ensures HeapInv(m.env.mem, calls, Flying(sender, m.env.g.queue, m.conn))
  {
    var flying := Flying(sender, v.g.queue, conn);
    if a.FreeDead? {
      var i := |flying| - |conn.dead|;
      FreeingKeeps(v.mem, calls, flying, i);
      assert Flying(sender, m.env.g.queue, m.conn) == flying[..i] + flying[i + 1..];
    } else {
      PortKeepsFlying(conn, v, a, m, sender);
    }
  }

  // ------------------------------------------------------------------ counters

  ghost predicate StatsInv(cfg: Config, st: Stats, queued: nat, sender: Sender, calls: map<CallId, Call>) {
    && st.renameOk == st.notifySent + st.notifyDropped + queued + Num(sender.InSend? || sender.Returned?)
                      + Count(calls, Pending) + st.ghostDrained
    && (cfg.failClosed ==>
          st.intercepts + st.ghostLookupDenials == st.renameOk + st.deleteDenied + Count(calls, Running))
  }

  lemma StatsKeptByCall(cfg: Config, s: State, c: CallId, k: Call, r: CallStep, t: State)
    requires StatsInv(cfg, s.env.stats, |s.env.g.queue|, s.sender, s.calls) && CallEvent(cfg, s, c, k, r, t)
    ensures StatsInv(cfg, t.env.stats, |t.env.g.queue|, t.sender, t.calls)
  {
    StatsKeptByMove(cfg, s.env, s.sender, s.calls, c, k, r, t.calls);
  }

  lemma StatsKeptByMove(cfg: Config, v: Env, sender: Sender, calls: map<CallId, Call>, c: CallId, k: Call, r: CallStep,
                        after: map<CallId, Call>)
    requires StatsInv(cfg, v.stats, |v.g.queue|, sender, calls) && StatsMove(cfg, k, v, r)
    requires after == calls[c := r.call] && if c in calls then k == calls[c] else k.pc == Opening
    ensures StatsInv(cfg, r.env.stats, |r.env.g.queue|, sender, after)
  {
    CountUpdate(calls, c, after, Pending);
    CountUpdate(calls, c, after, Running);
  }

  lemma StatsKeptBySender(cfg: Config, sender: Sender, v: Env, a: SendAct, m: SendStep, calls: map<CallId, Call>)
    requires StatsInv(cfg, v.stats, |v.g.queue|, sender, calls) && SenderStep(sender, v, a) == Some(m)
    ensures StatsInv(cfg, m.env.stats, |m.env.g.queue|, m.sender, calls)
  {
  }

  lemma StatsKeptByPort(cfg: Config, conn: Conn, v: Env, a: PortAct, m: ConnStep, sender: Sender,
                        calls: map<CallId, Call>)
    requires StatsInv(cfg, v.stats, |v.g.queue|, sender, calls) && PortStep(conn, v, a) == Some(m)
    ensures StatsInv(cfg, m.env.stats, |m.env.g.queue|, sender, calls)
  {
  }

  // ------------------------------------------------------------------ files

  /** What an entry says of a callback: it renamed the file, or a directory around it, or let its delete
      through. */
  ghost predicate EntryOk(f: FileId, e: FileState, calls: map<CallId, Call>) {
    match e
    case StagedBy(c) => c in calls && calls[c].file == f && PastRename(calls[c].pc)
    case Within(c) => c in calls && f in calls[c].within && PastRename(calls[c].pc)
    case DestroyedBy(d) => d in calls && calls[d].file == f && LetThrough(calls[d])
  }

  /** What a callback has done shows in its file's entry. */
  predicate DoneOk(k: Call, files: map<FileId, FileState>) {
    && (PastRename(k.pc) ==> k.file in files && !files[k.file].Within?)
    && (LetThrough(k) ==> k.file in files && files[k.file].DestroyedBy?)
  }

  /** Callback `m` renamed the file of `k`, or a directory around it. */
  predicate MovedBy(k: Call, m: Call) {
    PastRename(m.pc) && (m.file == k.file || k.file in m.within)
  }

  ghost predicate FileInv(files: map<FileId, FileState>, calls: map<CallId, Call>) {
    && (forall f :: f in files ==> EntryOk(f, files[f], calls))
    && (forall c :: c in calls ==> DoneOk(calls[c], files))
    && (forall c :: c in calls && calls[c].why.AfterMove? ==>
          var m := calls[c].why.mover; m in calls && m != c && MovedBy(calls[c], calls[m]))
  }

  /** A callback only moves on: what entries and reasons say of it stays true. */
  predicate MovesOn(k: Call, q: Call) {
    && q.file == k.file && (PastRename(k.pc) ==> PastRename(q.pc) && q.within == k.within)
    && !LetThrough(k)
  }

  lemma EntryStays(f: FileId, e: FileState, calls: map<CallId, Call>, c: CallId, q: Call)
    requires EntryOk(f, e, calls) && (c in calls ==> MovesOn(calls[c], q))
    ensures EntryOk(f, e, calls[c := q])
  {
  }

  lemma EntriesKept(cfg: Config, s: State, c: CallId, k: Call, r: CallStep, t: State)
    requires FileInv(s.env.files, s.calls) && Advance(s, c, k, r, t) && FileMove(cfg, c, k, s.env, r)
    ensures forall f :: f in t.env.files ==> EntryOk(f, t.env.files[f], t.calls)
  {
    forall f | f in t.env.files ensures EntryOk(f, t.env.files[f], t.calls) {
      if f in s.env.files && t.env.files[f] == s.env.files[f] {
        EntryStays(f, s.env.files[f], s.calls, c, r.call);
      }
    }
  }

  lemma DoneKept(cfg: Config, s: State, c: CallId, k: Call, r: CallStep, t: State)
    requires FileInv(s.env.files, s.calls) && Advance(s, c, k, r, t) && FileMove(cfg, c, k, s.env, r)
    ensures forall d :: d in t.calls ==> DoneOk(t.calls[d], t.env.files)
  {
    forall d | d in t.calls ensures DoneOk(t.calls[d], t.env.files) {
      if d != c {
        assert DoneOk(s.calls[d], s.env.files);
      } else if d in s.calls {
        assert DoneOk(s.calls[d], s.env.files);
      }
    }
  }

  lemma ReasonsKept(cfg: Config, s: State, c: CallId, k: Call, r: CallStep, t: State)
    requires FileInv(s.env.files, s.calls) && CallEvent(cfg, s, c, k, r, t)
    ensures forall d :: d in t.calls && t.calls[d].why.AfterMove? ==>
              var m := t.calls[d].why.mover; m in t.calls && m != d && MovedBy(t.calls[d], t.calls[m])
  {
    if r.call.why.AfterMove? {
      assert EntryOk(k.file, s.env.files[k.file], s.calls);
    }
    assert forall d :: d in s.calls && d != c ==> t.calls[d] == s.calls[d];
  }

  lemma FilesKeptByCall(cfg: Config, s: State, c: CallId, k: Call, r: CallStep, t: State)
    requires FileInv(s.env.files, s.calls) && CallEvent(cfg, s, c, k, r, t)
    ensures FileInv(t.env.files, t.calls)
  {
    EntriesKept(cfg, s, c, k, r, t);
    DoneKept(cfg, s, c, k, r, t);
    ReasonsKept(cfg, s, c, k, r, t);
  }

  // ------------------------------------------------------------------ staged copies

  /** Where the staged copy a callback made has got to. */
  function Whereabouts(w: World, c: CallId): int {
    Num(c in w.staging) + Num(c in w.landed) + Num(c in w.reclaimed) + Num(c in w.taken)
  }

  /** The staged copy of `c` went because of another request for the same file. */
  ghost predicate TakenOk(c: CallId, d: CallId, calls: map<CallId, Call>) {
    c in calls && d in calls && d != c && calls[d].file == calls[c].file &&
    (PastRename(calls[d].pc) || LetThrough(calls[d]))
  }

  ghost predicate PlaceInv(w: World, files: map<FileId, FileState>, calls: map<CallId, Call>) {
    && (forall c :: Whereabouts(w, c) == Num(PastRename(Phase(calls, c))))
    && (forall c :: c in w.staging ==> c in calls && calls[c].file in files && files[calls[c].file] == StagedBy(c))
    && (forall c :: c in w.taken ==> TakenOk(c, w.taken[c], calls))
  }

  lemma LeaveKeepsWhereabouts(w: World, files: map<FileId, FileState>, f: FileId, c: CallId, calls: map<CallId, Call>)
    requires forall d :: Whereabouts(w, d) == Num(PastRename(Phase(calls, d)))
    ensures forall d :: Whereabouts(Leave(w, files, f, c), d) == Num(PastRename(Phase(calls, d)))
  {
    forall d ensures Whereabouts(Leave(w, files, f, c), d) == Num(PastRename(Phase(calls, d))) {
      assert Whereabouts(w, d) == Num(PastRename(Phase(calls, d)));
    }
  }

  lemma WhereaboutsKept(cfg: Config, s: State, c: CallId, k: Call, r: CallStep, t: State)
    requires PlaceInv(s.env.world, s.env.files, s.calls) && Advance(s, c, k, r, t)
    requires FileMove(cfg, c, k, s.env, r) && StageMove(cfg, c, k, s.env, r) && NoticeMove(c, k, s.env, r)
    ensures forall d :: Whereabouts(t.env.world, d) == Num(PastRename(Phase(t.calls, d)))
  {
    LeaveKeepsWhereabouts(s.env.world, s.env.files, k.file, c, s.calls);
    forall d ensures Whereabouts(t.env.world, d) == Num(PastRename(Phase(t.calls, d))) {
      assert Whereabouts(s.env.world, d) == Num(PastRename(Phase(s.calls, d)));
      assert d != c ==> Phase(t.calls, d) == Phase(s.calls, d);
    }
  }

  lemma StagedKept(cfg: Config, s: State, c: CallId, k: Call, r: CallStep, t: State)
    requires PlaceInv(s.env.world, s.env.files, s.calls) && FileInv(s.env.files, s.calls) && Advance(s, c, k, r, t)
    requires FileMove(cfg, c, k, s.env, r) && StageMove(cfg, c, k, s.env, r)
    ensures forall d :: d in t.env.world.staging ==>
              d in t.calls && t.calls[d].file in t.env.files && t.env.files[t.calls[d].file] == StagedBy(d)
  {
    forall d | d in t.env.world.staging
      ensures d in t.calls && t.calls[d].file in t.env.files && t.env.files[t.calls[d].file] == StagedBy(d) {
      if d != c {
        assert d in s.env.world.staging;
      }
    }
  }

  lemma TakenStays(cfg: Config, s: State, c: CallId, k: Call, r: CallStep, t: State)
    requires PlaceInv(s.env.world, s.env.files, s.calls) && CallEvent(cfg, s, c, k, r, t)
    ensures forall d :: d in s.env.world.taken ==> TakenOk(d, s.env.world.taken[d], t.calls)
  {
    forall d | d in s.env.world.taken ensures TakenOk(d, s.env.world.taken[d], t.calls) {
      assert TakenOk(d, s.env.world.taken[d], s.calls);
    }
  }

  lemma LeaveTakes(w: World, files: map<FileId, FileState>, f: FileId, c: CallId, calls: map<CallId, Call>)
    requires forall d :: d in w.taken ==> TakenOk(d, w.taken[d], calls)
    requires c in calls && calls[c].file == f && (PastRename(calls[c].pc) || LetThrough(calls[c]))
    requires f in files && files[f].StagedBy? ==> EntryOk(f, files[f], calls) && files[f].call != c
    ensures forall d :: d in Leave(w, files, f, c).taken ==> TakenOk(d, Leave(w, files, f, c).taken[d], calls)
  {
  }

  lemma TakenKept(cfg: Config, s: State, c: CallId, k: Call, r: CallStep, t: State)
    requires PlaceInv(s.env.world, s.env.files, s.calls) && FileInv(s.env.files, s.calls) && CallEvent(cfg, s, c, k, r, t)
    ensures forall d :: d in t.env.world.taken ==> TakenOk(d, t.env.world.taken[d], t.calls)
  {
    TakenStays(cfg, s, c, k, r, t);
    if r.call.pc == Renamed || LetThrough(r.call) {
      if k.file in s.env.files {
        EntryStays(k.file, s.env.files[k.file], s.calls, c, r.call);
      }
      LeaveTakes(s.env.world, s.env.files, k.file, c, t.calls);
    }
  }

  lemma PlacesUnchanged(v: World, w: World, files: map<FileId, FileState>, calls: map<CallId, Call>)
    requires PlaceInv(v, files, calls)
    requires w.landed == v.landed && w.reclaimed == v.reclaimed && w.taken == v.taken
    requires forall c :: c in w.staging <==> c in v.staging
    ensures PlaceInv(w, files, calls)
  {
    forall c ensures Whereabouts(w, c) == Num(PastRename(Phase(calls, c))) {
      assert Whereabouts(v, c) == Num(PastRename(Phase(calls, c)));
    }
  }

  /** A staged copy lands, or is reclaimed. */
  lemma PlacesLoseOne(v: World, w: World, c: CallId, files: map<FileId, FileState>, calls: map<CallId, Call>)
    requires PlaceInv(v, files, calls) && c in v.staging
    requires w.taken == v.taken && w.staging == v.staging - {c}
    requires (w.landed == v.landed + {c} && w.reclaimed == v.reclaimed) ||
             (w.landed == v.landed && w.reclaimed == v.reclaimed + {c})
    ensures PlaceInv(w, files, calls)
  {
    forall d ensures Whereabouts(w, d) == Num(PastRename(Phase(calls, d))) {
      assert Whereabouts(v, d) == Num(PastRename(Phase(calls, d)));
    }
  }

  lemma PlacesKeptByWorld(cfg: Config, v: World, a: WorldAct, w: World, files: map<FileId, FileState>,
                          calls: map<CallId, Call>)
    requires PlaceInv(v, files, calls) && WorldStep(cfg, v, a) == Some(w)
    ensures PlaceInv(w, files, calls)
  {
    if a.Land? {
      PlacesLoseOne(v, w, a.call, files, calls);
    } else {
      PlacesUnchanged(v, w, files, calls);
    }
  }

  lemma PlacesKeptByReclaim(v: World, c: CallId, part: string, w: World, files: map<FileId, FileState>,
                            calls: map<CallId, Call>)
    requires PlaceInv(v, files, calls) && w == Reclaim(v, c, part).(sweeper := Idle)
    ensures PlaceInv(w, files, calls)
  {
    if c in v.staging && LastWriteOf(v.staging[c].content, part).Some? && part == "" {
      PlacesLoseOne(v, w, c, files, calls);
    } else {
      PlacesUnchanged(v, w, files, calls);
    }
  }

  // ------------------------------------------------------------------ notifications

  predicate WithCall(calls: map<CallId, Call>, c: CallId) {
    Phase(calls, c).Renamed? || Pending(Phase(calls, c))
  }

  predicate Sending(sender: Sender, c: CallId) {
    sender.InSend? && sender.node.owner == c
  }

  /** In how many of the six places the notification of callback `c` is. */
  ghost function Places(w: World, calls: map<CallId, Call>, queue: seq<Node>, sender: Sender, c: CallId): int {
    Num(WithCall(calls, c)) + Num(c in Owners(queue)) + Num(Sending(sender, c)) +
    Num(c in w.received) + Num(c in w.rows) + Num(c in w.orphaned)
  }

  ghost predicate CoverInv(w: World, calls: map<CallId, Call>, queue: seq<Node>, sender: Sender) {
    forall c :: Places(w, calls, queue, sender, c) == Num(PastRename(Phase(calls, c)))
  }

  lemma CoverKeptByCall(cfg: Config, s: State, c: CallId, k: Call, r: CallStep, t: State)
    requires CoverInv(s.env.world, s.calls, s.env.g.queue, s.sender) && CallEvent(cfg, s, c, k, r, t)
    ensures CoverInv(t.env.world, t.calls, t.env.g.queue, t.sender)
  {
    var q, q' := s.env.g.queue, t.env.g.queue;
    assert Owners(q') == Owners(q) + if k.pc.Ready? && r.call.pc == Inserted then {c} else {};
    assert Phase(t.calls, c) == r.call.pc && Phase(s.calls, c) == k.pc;
    forall d
      ensures Places(t.env.world, t.calls, q', t.sender, d) == Num(PastRename(Phase(t.calls, d)))
    {
      assert Places(s.env.world, s.calls, q, s.sender, d) == Num(PastRename(Phase(s.calls, d)));
      assert d != c ==> Phase(t.calls, d) == Phase(s.calls, d);
    }
  }

  lemma CoverKeptBySender(sender: Sender, v: Env, a: SendAct, m: SendStep, calls: map<CallId, Call>)
    requires CoverInv(v.world, calls, v.g.queue, sender) && Distinct(v.g.queue)
    requires SenderStep(sender, v, a) == Some(m)
    ensures CoverInv(m.env.world, calls, m.env.g.queue, m.sender)
  {
    HeadLeaves(v.g.queue);
    forall d
      ensures Places(m.env.world, calls, m.env.g.queue, m.sender, d) == Places(v.world, calls, v.g.queue, sender, d)
    {
    }
  }

  lemma CoverKeptByPort(conn: Conn, v: Env, a: PortAct, m: ConnStep, calls: map<CallId, Call>, sender: Sender)
    requires CoverInv(v.world, calls, v.g.queue, sender) && PortStep(conn, v, a) == Some(m)
    ensures CoverInv(m.env.world, calls, m.env.g.queue, sender)
  {
    forall d
      ensures Places(m.env.world, calls, m.env.g.queue, sender, d) == Places(v.world, calls, v.g.queue, sender, d)
    {
      assert Places(v.world, calls, v.g.queue, sender, d) <= 1;
    }
  }

  lemma CoverKeptByWorld(cfg: Config, v: World, a: WorldAct, w: World, calls: map<CallId, Call>, queue: seq<Node>,
                         sender: Sender)
    requires CoverInv(v, calls, queue, sender) && WorldStep(cfg, v, a) == Some(w)
    ensures CoverInv(w, calls, queue, sender)
  {
    forall d
      ensures Places(w, calls, queue, sender, d) == Places(v, calls, queue, sender, d)
    {
      assert Places(v, calls, queue, sender, d) <= 1;
    }
  }

  /** NotifySent counts the deliveries and the timeouts, which are successes to it too. */
  ghost predicate DeliveryInv(st: Stats, sender: Sender, w: World) {
    && w.delivered <= w.received + w.rows + w.orphaned
    && w.received + w.rows <= w.delivered
    && (sender.Returned? && sender.delivered ==> sender.ok)
    && st.notifySent + Num(sender.Returned? && sender.delivered) == |w.delivered| + st.ghostTimedOut
  }

  lemma DeliveryKeptBySender(sender: Sender, v: Env, a: SendAct, m: SendStep, calls: map<CallId, Call>)
    requires DeliveryInv(v.stats, sender, v.world) && CoverInv(v.world, calls, v.g.queue, sender)
    requires SenderStep(sender, v, a) == Some(m)
    ensures DeliveryInv(m.env.stats, m.sender, m.env.world)
  {
    if sender.InSend? {
      var c := sender.node.owner;
      assert Places(v.world, calls, v.g.queue, sender, c) <= 1;
      assert c !in v.world.delivered;
    }
  }

  lemma HeadLeaves(q: seq<Node>)
    requires Distinct(q)
    ensures q != [] ==> Owners(q[1..]) == Owners(q) - {q[0].owner} && q[0].owner in Owners(q)
  {
    if q != [] {
      OwnersWithout(q, 0);
      assert q[..0] + q[1..] == q[1..];
    }
  }

  // ------------------------------------------------------------------ the send thread's wake-up

  /** A send thread that is about to sleep, or sleeps, on a non-empty queue has a wake-up coming. */
  ghost predicate WakeInv(sender: Sender, queue: seq<Node>, event: bool, calls: map<CallId, Call>) {
    (sender.Outer? || sender.Waiting?) && queue != [] ==>
      event || exists c :: c in calls && calls[c].pc.Inserted?
  }

  lemma WakeKeptByCall(cfg: Config, s: State, c: CallId, k: Call, r: CallStep, t: State)
    requires WakeInv(s.sender, s.env.g.queue, s.env.event, s.calls) && CallEvent(cfg, s, c, k, r, t)
    ensures WakeInv(t.sender, t.env.g.queue, t.env.event, t.calls)
  {
    assert forall d :: d in s.calls && d != c ==> d in t.calls && t.calls[d] == s.calls[d];
    assert c in t.calls;
  }

  // ------------------------------------------------------------------ the staging sweep

  lemma YoungerThanGrace(now: int, lastWrite: int, days: nat)
    ensures AgeInDays(now, lastWrite) < days <==> days > 0 && now - lastWrite < days * (24 * 60 * 60 * 10000000)
  {
  }

  predicate Timely(cfg: Config) {
    cfg.freshWrites && cfg.patience + cfg.slack < cfg.graceDays * DAY
  }

  /** What the sweep looks up for this name is what the row holds. */
  predicate Matches(cfg: Config, c: CallId, via: string) {
    LookedUp(cfg, via, "") == Some(Recorded(cfg, c))
  }

  /** What the sweep needs in order to spare whatever has this path: by every name it examines the file
      under, a text that matches the row, and write times and delays within the grace period; and where it
      gets inside, nothing there. */
  ghost predicate NameIsSafe(cfg: Config, c: CallId) {
    && (forall via :: Reaches(cfg, c, via, "") ==> Matches(cfg, c, via) && Timely(cfg))
    && (cfg.flat || forall via, part :: ProperPart(part) ==> !Reaches(cfg, c, via, part))
  }

  ghost predicate SweepCondition(cfg: Config) {
    forall c: CallId :: |cfg.paths(c)| <= MAX_PATH ==> NameIsSafe(cfg, c)
  }

  /** A file whose row matches is looked up successfully once it has the row. */
  lemma RowIsFound(cfg: Config, c: CallId, via: string, rows: set<CallId>)
    requires Matches(cfg, c, via) && c in rows
    ensures Known(cfg, rows, via, "")
  {
  }

  /** Times, sizes and contents of what is staged. */
  ghost predicate StagingInv(cfg: Config, w: World) {
    && (forall c :: c in w.staging && InFlight(w, c) ==> w.clock - w.staging[c].since <= cfg.patience)
    && (forall c :: c in w.staging ==>
          |cfg.paths(c)| <= MAX_PATH && ContentAllowed(cfg, w.staging[c].since, w.staging[c].content))
    && (w.sweeper.SawNoRow? ==> 0 <= w.clock - w.sweeper.at <= cfg.slack)
  }

  /** Under the condition the sweep condemns only what is lost. */
  ghost predicate SweepInv(cfg: Config, w: World) {
    && (w.sweeper.SawNoRow? ==>
          && Timely(cfg) && w.sweeper.part == ""
          && (w.sweeper.target in w.orphaned || w.sweeper.at - w.sweeper.lastWrite <= cfg.patience))
    && (w.sweeper.Doomed? ==> w.sweeper.part == "" && w.sweeper.target in w.orphaned)
    && w.reclaimed <= w.orphaned && w.gutted == {}
  }

  lemma StagingKeptByCall(cfg: Config, s: State, c: CallId, k: Call, r: CallStep, t: State)
    requires StagingInv(cfg, s.env.world) && CallEvent(cfg, s, c, k, r, t)
    ensures StagingInv(cfg, t.env.world)
  {
  }

  lemma StagingKeptByWorld(cfg: Config, v: World, a: WorldAct, w: World)
    requires StagingInv(cfg, v) && WorldStep(cfg, v, a) == Some(w)
    ensures StagingInv(cfg, w)
  {
  }

  /** Without its lookups: the sweep makes up its mind, or deletes. */
  predicate SweepMove(v: World, a: SweepAct, w: World) {
    if a.Delete? then
      v.sweeper.Doomed? && w == Reclaim(v, v.sweeper.target, v.sweeper.part).(sweeper := Idle)
    else w == v.(sweeper := w.sweeper) && (w.sweeper.SawNoRow? && w.sweeper != v.sweeper ==> w.sweeper.at == v.clock)
  }

  lemma SweepMoves(cfg: Config, v: World, a: SweepAct, w: World)
    requires SweepStep(cfg, v, a) == Some(w)
    ensures SweepMove(v, a, w)
  {
  }

  lemma StagingKeptByReclaim(cfg: Config, v: World, c: CallId, part: string)
    requires StagingInv(cfg, v)
    ensures StagingInv(cfg, Reclaim(v, c, part).(sweeper := Idle))
  {
  }

  lemma StagingKeptBySweep(cfg: Config, v: World, a: SweepAct, w: World)
    requires StagingInv(cfg, v) && SweepMove(v, a, w)
    ensures StagingInv(cfg, w)
  {
    if a.Delete? {
      StagingKeptByReclaim(cfg, v, v.sweeper.target, v.sweeper.part);
    }
  }

  lemma PlacesKeptBySweep(v: World, a: SweepAct, w: World, files: map<FileId, FileState>, calls: map<CallId, Call>)
    requires PlaceInv(v, files, calls) && SweepMove(v, a, w)
    ensures PlaceInv(w, files, calls)
  {
    if a.Delete? {
      PlacesKeptByReclaim(v, v.sweeper.target, v.sweeper.part, w, files, calls);
    } else {
      PlacesUnchanged(v, w, files, calls);
    }
  }

  /** Only rows and losses are added by the other actors, so fewer notifications are in flight. */
  lemma StagingKeptByOthers(cfg: Config, v: World, w: World)
    requires StagingInv(cfg, v) && v.orphaned <= w.orphaned
    requires w == v.(orphaned := w.orphaned, received := w.received, delivered := w.delivered)
    ensures StagingInv(cfg, w)
  {
  }

  lemma QueryIsSound(cfg: Config, w: World, c: CallId, via: string, part: string)
    requires SweepCondition(cfg) && StagingInv(cfg, w) && c in w.staging && Reaches(cfg, c, via, part)
    requires LastWriteOf(w.staging[c].content, part).Some? && !Known(cfg, w.rows, via, part)
    ensures Timely(cfg) && part == ""
    ensures c in w.orphaned || w.clock - LastWriteOf(w.staging[c].content, part).value <= cfg.patience
  {
    assert NameIsSafe(cfg, c);
    if part == "" && c in w.rows {
      RowIsFound(cfg, c, via, w.rows);
    }
  }

  lemma SweepKeptByWorld(cfg: Config, v: World, a: WorldAct, w: World)
    requires SweepInv(cfg, v) && WorldStep(cfg, v, a) == Some(w)
    ensures SweepInv(cfg, w)
  {
  }

  lemma SweepKeptBySweep(cfg: Config, v: World, a: SweepAct, w: World)
    requires SweepCondition(cfg) && StagingInv(cfg, v) && SweepInv(cfg, v) && SweepStep(cfg, v, a) == Some(w)
    ensures SweepInv(cfg, w)
  {
    if a.Age? {
      YoungerThanGrace(v.clock, v.sweeper.lastWrite, cfg.graceDays);
    }
    if a.Query? && w != v {
      QueryIsSound(cfg, v, a.call, a.via, a.part);
    }
  }

  // ------------------------------------------------------------------ all of it, over runs

  /** The driver's queue, slots, blocks, counters and wake-up. */
  ghost predicate DriverInv(cfg: Config, g: Shared, mem: Memory, st: Stats, event: bool, calls: map<CallId, Call>,
                            sender: Sender, conn: Conn) {
    && PortInv(g, sender, conn)
    && SlotInv(cfg, g, calls)
    && HeapInv(mem, calls, Flying(sender, g.queue, conn))
    && StatsInv(cfg, st, |g.queue|, sender, calls)
    && WakeInv(sender, g.queue, event, calls)
  }

  /** Files, staged copies and their notifications. */
  ghost predicate DataInv(cfg: Config, queue: seq<Node>, st: Stats, files: map<FileId, FileState>, w: World,
                          calls: map<CallId, Call>, sender: Sender) {
    && FileInv(files, calls) && AllExcused(cfg, calls)
    && PlaceInv(w, files, calls)
    && CoverInv(w, calls, queue, sender)
    && DeliveryInv(st, sender, w)
    && StagingInv(cfg, w) && (SweepCondition(cfg) ==> SweepInv(cfg, w))
  }

  ghost predicate Inv(cfg: Config, s: State) {
    var v := s.env;
    && DriverInv(cfg, v.g, v.mem, v.stats, v.event, s.calls, s.sender, s.conn)
    && DataInv(cfg, v.g.queue, v.stats, v.files, v.world, s.calls, s.sender)
  }

  lemma InitHolds(cfg: Config, clock: int)
    ensures Inv(cfg, Init(clock))
  {
    var s := Init(clock);
    assert Members(s.calls, HoldsSlot) == {};
    assert Members(s.calls, Pending) == {};
    assert Members(s.calls, Running) == {};
  }

  lemma CallKeepsQueue(cfg: Config, s: State, c: CallId, k: Call, r: CallStep, t: State)
    requires CallEvent(cfg, s, c, k, r, t) && PortInv(s.env.g, s.sender, s.conn)
    requires HeapInv(s.env.mem, s.calls, Flying(s.sender, s.env.g.queue, s.conn))
    ensures PortInv(t.env.g, t.sender, t.conn)
    ensures HeapInv(t.env.mem, t.calls, Flying(t.sender, t.env.g.queue, t.conn))
  {
    var flying := Flying(s.sender, s.env.g.queue, s.conn);
    PortKeptByCall(cfg, s, c, k, r, t);
    HeapKeptByCall(cfg, s, c, k, r, t, flying);
    assert Flying(t.sender, t.env.g.queue, t.conn) ==
           if k.pc.Ready? && r.call.pc == Inserted then flying + [Node(c, k.pc.port)] else flying;
  }

  lemma CallKeepsPlaces(cfg: Config, s: State, c: CallId, k: Call, r: CallStep, t: State)
    requires PlaceInv(s.env.world, s.env.files, s.calls) && FileInv(s.env.files, s.calls) && CallEvent(cfg, s, c, k, r, t)
    ensures PlaceInv(t.env.world, t.env.files, t.calls)
  {
    WhereaboutsKept(cfg, s, c, k, r, t);
    StagedKept(cfg, s, c, k, r, t);
    TakenKept(cfg, s, c, k, r, t);
  }

  lemma CallKeeps(cfg: Config, s: State, c: CallId, k: Call, r: CallStep, t: State)
    requires Inv(cfg, s) && CallEvent(cfg, s, c, k, r, t)
    ensures Inv(cfg, t)
  {
    CallKeepsQueue(cfg, s, c, k, r, t);
    SlotKeptByCall(cfg, s, c, k, r, t);
    StatsKeptByCall(cfg, s, c, k, r, t);
    FilesKeptByCall(cfg, s, c, k, r, t);
    CallKeepsPlaces(cfg, s, c, k, r, t);
    CoverKeptByCall(cfg, s, c, k, r, t);
    WakeKeptByCall(cfg, s, c, k, r, t);
    StagingKeptByCall(cfg, s, c, k, r, t);
  }

  lemma SenderKeepsDriver(cfg: Config, v: Env, a: SendAct, m: SendStep, calls: map<CallId, Call>, sender: Sender,
                          conn: Conn)
    requires DriverInv(cfg, v.g, v.mem, v.stats, v.event, calls, sender, conn) && SenderStep(sender, v, a) == Some(m)
    ensures DriverInv(cfg, m.env.g, m.env.mem, m.env.stats, m.env.event, calls, m.sender, conn)
  {
    PortKeptBySender(sender, v, a, m, conn);
    HeapKeptBySender(sender, v, a, m, calls, conn);
    StatsKeptBySender(cfg, sender, v, a, m, calls);
  }

  /** The send thread hands a notification to the service, or loses it. */
  predicate WorldHandsOver(v: World, w: World) {
    v.orphaned <= w.orphaned && w == v.(orphaned := w.orphaned, received := w.received, delivered := w.delivered)
  }

  lemma SenderMoves(sender: Sender, v: Env, a: SendAct, m: SendStep)
    requires SenderStep(sender, v, a) == Some(m)
    ensures WorldHandsOver(v.world, m.env.world) && m.env.files == v.files
  {
  }

  lemma HandingOverKeeps(cfg: Config, v: World, w: World, files: map<FileId, FileState>, calls: map<CallId, Call>)
    requires StagingInv(cfg, v) && PlaceInv(v, files, calls) && WorldHandsOver(v, w)
    requires SweepCondition(cfg) ==> SweepInv(cfg, v)
    ensures StagingInv(cfg, w) && PlaceInv(w, files, calls) && (SweepCondition(cfg) ==> SweepInv(cfg, w))
  {
    StagingKeptByOthers(cfg, v, w);
    PlacesUnchanged(v, w, files, calls);
  }

  lemma SenderKeepsNotices(v: Env, a: SendAct, m: SendStep, calls: map<CallId, Call>, sender: Sender)
    requires CoverInv(v.world, calls, v.g.queue, sender) && DeliveryInv(v.stats, sender, v.world) && Distinct(v.g.queue)
    requires SenderStep(sender, v, a) == Some(m)
    ensures CoverInv(m.env.world, calls, m.env.g.queue, m.sender) && DeliveryInv(m.env.stats, m.sender, m.env.world)
  {
    CoverKeptBySender(sender, v, a, m, calls);
    DeliveryKeptBySender(sender, v, a, m, calls);
  }

  lemma SenderKeeps(cfg: Config, s: State, a: SendAct, m: SendStep)
    requires Inv(cfg, s) && SenderStep(s.sender, s.env, a) == Some(m)
    ensures Inv(cfg, s.(env := m.env, sender := m.sender))
  {
    QueueDistinct(s.sender, s.env.g.queue, s.conn);
    SenderKeepsDriver(cfg, s.env, a, m, s.calls, s.sender, s.conn);
    SenderKeepsNotices(s.env, a, m, s.calls, s.sender);
    SenderMoves(s.sender, s.env, a, m);
    HandingOverKeeps(cfg, s.env.world, m.env.world, s.env.files, s.calls);
  }

  lemma PortKeepsDriver(cfg: Config, v: Env, a: PortAct, m: ConnStep, calls: map<CallId, Call>, sender: Sender,
                        conn: Conn)
    requires DriverInv(cfg, v.g, v.mem, v.stats, v.event, calls, sender, conn) && PortStep(conn, v, a) == Some(m)
    ensures DriverInv(cfg, m.env.g, m.env.mem, m.env.stats, m.env.event, calls, sender, m.conn)
  {
    PortKeptByPort(conn, v, a, m, sender);
    HeapKeptByPort(conn, v, a, m, calls, sender);
    StatsKeptByPort(cfg, conn, v, a, m, sender, calls);
  }

  lemma PortKeepsData(cfg: Config, v: Env, a: PortAct, m: ConnStep, calls: map<CallId, Call>, sender: Sender,
                      conn: Conn)
    requires DataInv(cfg, v.g.queue, v.stats, v.files, v.world, calls, sender) && PortStep(conn, v, a) == Some(m)
    ensures DataInv(cfg, m.env.g.queue, m.env.stats, m.env.files, m.env.world, calls, sender)
  {
    CoverKeptByPort(conn, v, a, m, calls, sender);
    StagingKeptByOthers(cfg, v.world, m.env.world);
    PlacesUnchanged(v.world, m.env.world, v.files, calls);
  }

  lemma PortKeeps(cfg: Config, s: State, a: PortAct, m: ConnStep)
    requires Inv(cfg, s) && PortStep(s.conn, s.env, a) == Some(m)
    ensures Inv(cfg, s.(env := m.env, conn := m.conn))
  {
    PortKeepsDriver(cfg, s.env, a, m, s.calls, s.sender, s.conn);
    PortKeepsData(cfg, s.env, a, m, s.calls, s.sender, s.conn);
  }

  lemma FlushKeepsHeap(mem: Memory, calls: map<CallId, Call>, sender: Sender, queue: seq<Node>, conn: Conn)
    requires HeapInv(mem, calls, Flying(sender, queue, conn)) && queue != []
    ensures HeapInv(FreeBoth(mem, queue[0].owner), calls, Flying(sender, queue[1..], conn))
  {
    var i, flying := |Held(sender)|, Flying(sender, queue, conn);
    FreeingKeeps(mem, calls, flying, i);
    assert Flying(sender, queue[1..], conn) == flying[..i] + flying[i + 1..];
  }

  lemma FlushKeepsCover(w: World, calls: map<CallId, Call>, queue: seq<Node>, sender: Sender)
    requires CoverInv(w, calls, queue, sender) && Distinct(queue) && queue != []
    ensures CoverInv(Orphan(w, {queue[0].owner}), calls, queue[1..], sender)
  {
    HeadLeaves(queue);
    forall d
      ensures Places(Orphan(w, {queue[0].owner}), calls, queue[1..], sender, d) == Places(w, calls, queue, sender, d)
    {
      assert Places(w, calls, queue, sender, d) <= 1;
    }
  }

  lemma FlushKeepsDriver(cfg: Config, g: Shared, mem: Memory, st: Stats, event: bool, calls: map<CallId, Call>,
                         sender: Sender, conn: Conn)
    requires DriverInv(cfg, g, mem, st, event, calls, sender, conn) && g.queue != []
    ensures DriverInv(cfg, TakeForFlush(g).0, FreeBoth(mem, g.queue[0].owner),
                      st.(ghostDrained := st.ghostDrained + 1), event, calls, sender, conn)
  {
    FlushKeepsHeap(mem, calls, sender, g.queue, conn);
  }

  lemma FlushKeepsData(cfg: Config, queue: seq<Node>, st: Stats, files: map<FileId, FileState>, w: World,
                       calls: map<CallId, Call>, sender: Sender)
    requires DataInv(cfg, queue, st, files, w, calls, sender) && queue != [] && Distinct(queue)
    ensures DataInv(cfg, queue[1..], st.(ghostDrained := st.ghostDrained + 1), files, Orphan(w, {queue[0].owner}),
                    calls, sender)
  {
    var x := Orphan(w, {queue[0].owner});
    FlushKeepsCover(w, calls, queue, sender);
    StagingKeptByOthers(cfg, w, x);
    PlacesUnchanged(w, x, files, calls);
  }

  lemma FlushMoves(unload: Unload, sender: Sender, v: Env, m: UnloadStep)
    requires UnloadingStep(unload, sender, v, FlushOne) == Some(m)
    ensures v.g.queue != []
    ensures m.env == v.(g := TakeForFlush(v.g).0, mem := FreeBoth(v.mem, v.g.queue[0].owner),
                        world := Orphan(v.world, {v.g.queue[0].owner}),
                        stats := v.stats.(ghostDrained := v.stats.ghostDrained + 1))
  {
  }

  lemma UnloadMoves(unload: Unload, sender: Sender, v: Env, a: UnloadAct, m: UnloadStep)
    requires UnloadingStep(unload, sender, v, a) == Some(m) && !a.FlushOne?
    ensures m.env == v.(active := m.env.active, event := m.env.event) && (v.event ==> m.env.event)
  {
  }

  lemma UnloadKeeps(cfg: Config, s: State, a: UnloadAct, m: UnloadStep)
    requires Inv(cfg, s) && UnloadingStep(s.unload, s.sender, s.env, a) == Some(m)
    ensures Inv(cfg, s.(env := m.env, unload := m.unload))
  {
    var v := s.env;
    if a.FlushOne? {
      FlushMoves(s.unload, s.sender, v, m);
      QueueDistinct(s.sender, v.g.queue, s.conn);
      FlushKeepsDriver(cfg, v.g, v.mem, v.stats, v.event, s.calls, s.sender, s.conn);
      FlushKeepsData(cfg, v.g.queue, v.stats, v.files, v.world, s.calls, s.sender);
    } else {
      UnloadMoves(s.unload, s.sender, v, a, m);
      assert WakeInv(s.sender, v.g.queue, m.env.event, s.calls);
    }
  }

  lemma QueueDistinct(sender: Sender, queue: seq<Node>, conn: Conn)
    requires Distinct(Flying(sender, queue, conn))
    ensures Distinct(queue)
  {
    var k := |Held(sender)|;
    assert forall i :: 0 <= i < |queue| ==> Flying(sender, queue, conn)[k + i] == queue[i];
  }

  lemma WorldKeepsData(cfg: Config, queue: seq<Node>, st: Stats, files: map<FileId, FileState>, v: World,
                       a: WorldAct, w: World,
                       calls: map<CallId, Call>, sender: Sender)
    requires DataInv(cfg, queue, st, files, v, calls, sender) && WorldStep(cfg, v, a) == Some(w)
    ensures DataInv(cfg, queue, st, files, w, calls, sender)
  {
    PlacesKeptByWorld(cfg, v, a, w, files, calls);
    CoverKeptByWorld(cfg, v, a, w, calls, queue, sender);
    DeliveryKeptByWorld(cfg, st, sender, v, a, w);
    StagingKeptByWorld(cfg, v, a, w);
    if SweepCondition(cfg) {
      SweepKeptByWorld(cfg, v, a, w);
    }
  }

  lemma WorldKeeps(cfg: Config, s: State, a: WorldAct, w: World)
    requires Inv(cfg, s) && WorldStep(cfg, s.env.world, a) == Some(w)
    ensures Inv(cfg, s.(env := s.env.(world := w)))
  {
    WorldKeepsData(cfg, s.env.g.queue, s.env.stats, s.env.files, s.env.world, a, w, s.calls, s.sender);
  }

  lemma DeliveryKeptByWorld(cfg: Config, st: Stats, sender: Sender, v: World, a: WorldAct, w: World)
    requires DeliveryInv(st, sender, v) && WorldStep(cfg, v, a) == Some(w)
    ensures DeliveryInv(st, sender, w)
  {
  }

  /** The sweep touches nothing but staged copies. */
  lemma SweepKeepsNotices(queue: seq<Node>, st: Stats, v: World, a: SweepAct, w: World, calls: map<CallId, Call>,
                          sender: Sender)
    requires CoverInv(v, calls, queue, sender) && DeliveryInv(st, sender, v) && SweepMove(v, a, w)
    ensures CoverInv(w, calls, queue, sender) && DeliveryInv(st, sender, w)
  {
    CoverUnchanged(v, w, calls, queue, sender);
  }

  lemma SweepKeepsData(cfg: Config, queue: seq<Node>, st: Stats, files: map<FileId, FileState>, v: World,
                       a: SweepAct, w: World,
                       calls: map<CallId, Call>, sender: Sender)
    requires DataInv(cfg, queue, st, files, v, calls, sender) && SweepMove(v, a, w)
    requires SweepCondition(cfg) ==> SweepInv(cfg, w)
    ensures DataInv(cfg, queue, st, files, w, calls, sender)
  {
    PlacesKeptBySweep(v, a, w, files, calls);
    SweepKeepsNotices(queue, st, v, a, w, calls, sender);
    StagingKeptBySweep(cfg, v, a, w);
  }

  lemma SweepKeeps(cfg: Config, s: State, a: SweepAct, w: World)
    requires Inv(cfg, s) && SweepStep(cfg, s.env.world, a) == Some(w)
    ensures Inv(cfg, s.(env := s.env.(world := w)))
  {
    SweepMoves(cfg, s.env.world, a, w);
    if SweepCondition(cfg) {
      SweepKeptBySweep(cfg, s.env.world, a, w);
    }
    SweepKeepsData(cfg, s.env.g.queue, s.env.stats, s.env.files, s.env.world, a, w, s.calls, s.sender);
  }

  lemma CoverUnchanged(v: World, w: World, calls: map<CallId, Call>, queue: seq<Node>, sender: Sender)
    requires CoverInv(v, calls, queue, sender)
    requires w.received == v.received && w.rows == v.rows && w.orphaned == v.orphaned
    ensures CoverInv(w, calls, queue, sender)
  {
    forall c ensures Places(w, calls, queue, sender, c) == Num(PastRename(Phase(calls, c))) {
      assert Places(v, calls, queue, sender, c) == Num(PastRename(Phase(calls, c)));
    }
  }

  lemma StepKeeps(cfg: Config, s: State, e: Event, t: State)
    requires Inv(cfg, s) && Step(cfg, s, e) == Some(t)
    ensures Inv(cfg, t)
  {
    match e
    case OfSender(a) => SenderKeeps(cfg, s, a, SenderStep(s.sender, s.env, a).value);
    case OfPort(a) => PortKeeps(cfg, s, a, PortStep(s.conn, s.env, a).value);
    case OfUnload(a) => UnloadKeeps(cfg, s, a, UnloadingStep(s.unload, s.sender, s.env, a).value);
    case OfWorld(a) => WorldKeeps(cfg, s, a, WorldStep(cfg, s.env.world, a).value);
    case OfSweep(a) => SweepKeeps(cfg, s, a, SweepStep(cfg, s.env.world, a).value);
    case _ =>
      var k, r := CallEvents(cfg, s, e, t);
      CallKeeps(cfg, s, e.call, k, r, t);
  }

  lemma {:induction false} RunKeeps(cfg: Config, s: State, es: seq<Event>, t: State)
    requires Inv(cfg, s) && Run(cfg, s, es) == Some(t)
    ensures Inv(cfg, t)
    decreases |es|
  {
    if es != [] {
      var m := Step(cfg, s, es[0]).value;
      StepKeeps(cfg, s, es[0], m);
      RunKeeps(cfg, m, es[1..], t);
    }
  }

  lemma ReachableHolds(cfg: Config, s: State)
    requires Reachable(cfg, s)
    ensures Inv(cfg, s)
  {
    var clock, es :| Run(cfg, Init(clock), es) == Some(s);
    InitHolds(cfg, clock);
    RunKeeps(cfg, Init(clock), es, s);
  }

  lemma DriverHolds(cfg: Config, s: State)
    requires Reachable(cfg, s)
    ensures PortInv(s.env.g, s.sender, s.conn) && SlotInv(cfg, s.env.g, s.calls)
    ensures HeapInv(s.env.mem, s.calls, Flying(s.sender, s.env.g.queue, s.conn))
  {
    ReachableHolds(cfg, s);
  }
}
