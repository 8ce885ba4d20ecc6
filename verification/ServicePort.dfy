/**
 The service's port handle and stats round-trips as a step machine over a handle table and a heap that
 both reuse numbers: the port thread connecting and closing, any number of PortQueryStats callers, and
 one worker thread per started round-trip. One step is one access to something shared.
 */
module ServicePort {
  import opened Common

  type Handle = nat
  type Address = nat

  datatype Owner = Reader | Sample(id: nat)

  /** What a handle-table entry refers to. Every entry is tagged with whoever created it. */
  datatype Object = Connection | Duplicate(id: nat) | DoneEvent(id: nat, isSet: bool) | Thread(id: nat) {
    function Creator(): Owner {
      match this
      case Connection => Reader
      case Duplicate(i) => Sample(i)
      case DoneEvent(i, _) => Sample(i)
      case Thread(i) => Sample(i)
    }
  }

  /** PORT_SEND_CTX, tagged with the call that allocated it. */
  datatype Context = Context(id: nat, port: Option<Handle>, done: Option<Handle>, refs: nat)

  /** `fault`: some step used a freed context or a handle number that named nothing. `flagHolder` and
      `samples[i].port`, `.done`, `.frees` are history: no step reads them. */
  datatype Shared = Shared(table: map<Handle, Object>, heap: map<Address, Context>, inFlight: bool, flagHolder: nat,
                           lock: Option<Owner>, gPort: Option<Handle>, fault: bool)

  /** The caller's side of PortQueryStats, named after what it does next. */
  datatype CallerPc =
    | Claiming | Locking | Looking | NoPort
    | Duplicating | NotDuplicated | Discarding
    | MakingEvent | Checking | Starting
    | BackingOut | Bail2 | Bail1
    | DroppingThread | Waiting | Reading | Releasing
    | ClosingDone | Freeing | Returned

  datatype WorkerPc =
    | NotStarted | Sending | Signalling | Clearing | ClosingPort | Dropping | EndingDone | EndingFree | Exited

  // Phases of the caller, then of the worker.

  /** Before the call has a context. */
  predicate Early(pc: CallerPc) {
    pc.Claiming? || pc.Locking? || pc.Looking? || pc.NoPort?
  }

  predicate SettingUp(pc: CallerPc) {
    pc.Duplicating? || pc.NotDuplicated? || pc.Discarding? || pc.MakingEvent?
  }

  predicate StartingUp(pc: CallerPc) {
    pc.Checking? || pc.Starting? || pc.BackingOut?
  }

  predicate AwaitingWorker(pc: CallerPc) {
    pc.DroppingThread? || pc.Waiting? || pc.Reading?
  }

  predicate LettingGo(pc: CallerPc) {
    pc.Bail2? || pc.Bail1? || pc.Releasing?
  }

  predicate CleaningUp(pc: CallerPc) {
    pc.ClosingDone? || pc.Freeing?
  }

  predicate BusySending(pc: WorkerPc) {
    pc.Sending? || pc.Signalling? || pc.Clearing? || pc.ClosingPort?
  }

  predicate Leaving(pc: WorkerPc) {
    pc.Dropping? || pc.EndingDone? || pc.EndingFree?
  }

  datatype Call = Call(caller: CallerPc, worker: WorkerPc, c: Address, thread: Handle,
                       port: Option<Handle>, done: Option<Handle>, frees: nat)

  /** The port thread: `closing` is the handle PortCloseLocked has taken out of g_Port. */
  datatype ReaderPc = Down | Connecting | Up | Ending | Closing(closing: Handle) | Closed

  datatype State = State(env: Shared, calls: seq<Call>, reader: ReaderPc)

  /** The system's choice in a step: a number to hand out, or failure. */
  datatype Choice = Gives(number: nat) | Fails

  datatype Event = NewCall | Caller(i: nat, choice: Choice) | Worker(i: nat) | PortThread(choice: Choice)

  // ------------------------------------------------------------------ primitive operations

  function CloseHandle(e: Shared, h: Handle): Shared {
    if h in e.table then e.(table := e.table - {h}) else e.(fault := true)
  }

  function SetEvent(e: Shared, h: Handle): Shared {
    if h in e.table && e.table[h].DoneEvent? then e.(table := e.table[h := e.table[h].(isSet := true)])
    else e.(fault := true)
  }

  function Unlock(e: Shared): Shared {
    e.(lock := None)
  }

  function ClearFlag(e: Shared): Shared {
    e.(inFlight := false)
  }

  function HeapFree(e: Shared, c: Address): Shared {
    if c in e.heap then e.(heap := e.heap - {c}) else e.(fault := true)
  }

  function Decrement(e: Shared, c: Address): Shared
    requires c in e.heap
  {
    var x := e.heap[c];
    if x.refs == 0 then e.(fault := true) else e.(heap := e.heap[c := x.(refs := x.refs - 1)])
  }

  // ------------------------------------------------------------------ the caller

  /** Lines that run before there is a context. */
  function EarlyStep(i: nat, s: Call, e: Shared, m: Choice): Option<(Call, Shared)>
    requires Early(s.caller)
  {
    match s.caller
    case Claiming =>
      if e.inFlight then Some((s.(caller := Returned), e))
      else Some((s.(caller := Locking), e.(inFlight := true, flagHolder := i)))
    case Locking =>
      if e.lock.Some? then None else Some((s.(caller := Looking), e.(lock := Some(Sample(i)))))
    case Looking =>
      if e.gPort.None? || m.Fails? then Some((s.(caller := NoPort), Unlock(e)))
      else if m.number in e.heap then None
      else Some((s.(caller := Duplicating, c := m.number),
                 e.(heap := e.heap[m.number := Context(i, None, None, 0)])))
    case NoPort => Some((s.(caller := Returned), ClearFlag(e)))
  }

  /** Filling the context. `duplicate` is false in the earlier form, which kept the raw g_Port value. */
  function SetupStep(duplicate: bool, i: nat, s: Call, e: Shared, m: Choice): Option<(Call, Shared)>
    requires SettingUp(s.caller)
  {
    if s.c !in e.heap then Some((s, e.(fault := true)))
    else
      var x := e.heap[s.c];
      match s.caller
      case Duplicating =>
        if m.Fails? then Some((s.(caller := NotDuplicated), Unlock(e)))
        else if e.gPort.None? || e.gPort.value !in e.table then Some((s, e.(fault := true)))
        else if !duplicate then
          Some((s.(caller := MakingEvent, port := e.gPort), e.(heap := e.heap[s.c := x.(port := e.gPort)])))
        else if m.number in e.table then None
        else Some((s.(caller := MakingEvent, port := Some(m.number)),
                   e.(table := e.table[m.number := Duplicate(i)], heap := e.heap[s.c := x.(port := Some(m.number))])))
      case NotDuplicated => Some((s.(caller := Discarding), ClearFlag(e)))
      case Discarding => Some((s.(caller := Returned, frees := s.frees + 1), HeapFree(e, s.c)))
      case MakingEvent =>
        if m.Fails? then Some((s.(caller := Checking), Unlock(e).(heap := e.heap[s.c := x.(refs := 2)])))
        else if m.number in e.table then None
        else Some((s.(caller := Checking, done := Some(m.number)),
                   Unlock(e).(table := e.table[m.number := DoneEvent(i, false)],
                              heap := e.heap[s.c := x.(refs := 2, done := Some(m.number))])))
  }

  /** Starting the worker, or giving up on it. */
  function StartStep(i: nat, s: Call, e: Shared, m: Choice): Option<(Call, Shared)>
    requires StartingUp(s.caller)
  {
    if s.c !in e.heap then Some((s, e.(fault := true)))
    else
      match s.caller
      case Checking => Some((s.(caller := if e.heap[s.c].done.None? then BackingOut else Starting), e))
      case Starting =>
        if m.Fails? then Some((s.(caller := BackingOut), e))
        else if m.number in e.table then None
        else Some((s.(caller := DroppingThread, worker := Sending, thread := m.number),
                   e.(table := e.table[m.number := Thread(i)])))
      case BackingOut => Some((s.(caller := Bail2), ClearFlag(e)))
  }

  /** Waiting for the worker; `m` failing is the timeout. */
  function WaitStep(s: Call, e: Shared, m: Choice): Option<(Call, Shared)>
    requires AwaitingWorker(s.caller)
  {
    if s.caller == DroppingThread then Some((s.(caller := Waiting), CloseHandle(e, s.thread)))
    else if s.c !in e.heap then Some((s, e.(fault := true)))
    else if s.caller == Reading || m.Fails? then Some((s.(caller := Releasing), e))
    else
      var done := e.heap[s.c].done;
      if done.None? || done.value !in e.table || !e.table[done.value].DoneEvent? then Some((s, e.(fault := true)))
      else if e.table[done.value].isSet then Some((s.(caller := Reading), e))
      else None
  }

  /** PortSendCtxRelease up to its decrement ... */
  function DropStep(s: Call, e: Shared): Option<(Call, Shared)>
    requires LettingGo(s.caller)
  {
    if s.c !in e.heap then Some((s, e.(fault := true)))
    else
      var last := e.heap[s.c].refs == 1;
      var next := if last then ClosingDone else if s.caller == Bail2 then Bail1 else Returned;
      Some((s.(caller := next), Decrement(e, s.c)))
  }

  /** ... and the rest, for whoever took the count to zero. */
  function EndStep(s: Call, e: Shared): Option<(Call, Shared)>
    requires CleaningUp(s.caller)
  {
    if s.c !in e.heap then Some((s, e.(fault := true)))
    else if s.caller == Freeing then Some((s.(caller := Returned, frees := s.frees + 1), HeapFree(e, s.c)))
    else
      var done := e.heap[s.c].done;
      Some((s.(caller := Freeing), if done.Some? then CloseHandle(e, done.value) else e))
  }

  function CallerStep(duplicate: bool, i: nat, s: Call, e: Shared, m: Choice): Option<(Call, Shared)> {
    match s.caller
    case Claiming | Locking | Looking | NoPort => EarlyStep(i, s, e, m)
    case Duplicating | NotDuplicated | Discarding | MakingEvent => SetupStep(duplicate, i, s, e, m)
    case Checking | Starting | BackingOut => StartStep(i, s, e, m)
    case DroppingThread | Waiting | Reading => WaitStep(s, e, m)
    case Bail2 | Bail1 | Releasing => DropStep(s, e)
    case ClosingDone | Freeing => EndStep(s, e)
    case Returned => None
  }

  // ------------------------------------------------------------------ the worker and the port thread

  /** PortSendWorker up to its CloseHandle. Leaving `Sending` is FilterSendMessage returning, whenever the
      system lets it. */
  function SendStep(s: Call, e: Shared): Option<(Call, Shared)>
    requires BusySending(s.worker)
  {
    if s.worker == Clearing then Some((s.(worker := ClosingPort), ClearFlag(e)))
    else if s.c !in e.heap then Some((s, e.(fault := true)))
    else
      var x := e.heap[s.c];
      match s.worker
      case Sending => Some((s.(worker := Signalling), e))
      case Signalling =>
        Some((s.(worker := Clearing), if x.done.Some? then SetEvent(e, x.done.value) else e.(fault := true)))
      case ClosingPort =>
        Some((s.(worker := Dropping), if x.port.Some? then CloseHandle(e, x.port.value) else e.(fault := true)))
  }

  /** Its PortSendCtxRelease. */
  function WorkerEndStep(s: Call, e: Shared): Option<(Call, Shared)>
    requires Leaving(s.worker)
  {
    if s.c !in e.heap then Some((s, e.(fault := true)))
    else
      var x := e.heap[s.c];
      match s.worker
      case Dropping => Some((s.(worker := if x.refs == 1 then EndingDone else Exited), Decrement(e, s.c)))
      case EndingDone => Some((s.(worker := EndingFree), if x.done.Some? then CloseHandle(e, x.done.value) else e))
      case EndingFree => Some((s.(worker := Exited, frees := s.frees + 1), HeapFree(e, s.c)))
  }

  function WorkerStep(s: Call, e: Shared): Option<(Call, Shared)> {
    match s.worker
    case NotStarted | Exited => None
    case Sending | Signalling | Clearing | ClosingPort => SendStep(s, e)
    case Dropping | EndingDone | EndingFree => WorkerEndStep(s, e)
  }

  /** PortConnect and PortCloseLocked, each under the lock, as PortThreadProc calls them. */
  function ReaderStep(r: ReaderPc, e: Shared, m: Choice): Option<(ReaderPc, Shared)> {
    match r
    case Down => if e.lock.Some? then None else Some((Connecting, e.(lock := Some(Reader))))
    case Connecting =>
      if m.Fails? then Some((Down, Unlock(e.(gPort := None))))
      else if m.number in e.table then None
      else Some((Up, Unlock(e.(gPort := Some(m.number), table := e.table[m.number := Connection]))))
    case Up => if e.lock.Some? then None else Some((Ending, e.(lock := Some(Reader))))
    case Ending =>
      if e.gPort.None? then Some((Closed, e)) else Some((Closing(e.gPort.value), e.(gPort := None)))
    case Closing(h) => Some((Closed, CloseHandle(e, h)))
    case Closed => Some((Down, Unlock(e)))
  }

  // ------------------------------------------------------------------ runs

  function Step(duplicate: bool, st: State, ev: Event): Option<State> {
    match ev
    case NewCall => Some(st.(calls := st.calls + [Call(Claiming, NotStarted, 0, 0, None, None, 0)]))
    case Caller(i, m) =>
      if i >= |st.calls| then None
      else
        var r := CallerStep(duplicate, i, st.calls[i], st.env, m);
        if r.None? then None else Some(st.(calls := st.calls[i := r.value.0], env := r.value.1))
    case Worker(i) =>
      if i >= |st.calls| then None
      else
        var r := WorkerStep(st.calls[i], st.env);
        if r.None? then None else Some(st.(calls := st.calls[i := r.value.0], env := r.value.1))
    case PortThread(m) =>
      var r := ReaderStep(st.reader, st.env, m);
      if r.None? then None else Some(st.(reader := r.value.0, env := r.value.1))
  }

  const INIT: State := State(Shared(map[], map[], false, 0, None, None, false), [], Down)

  function Run(duplicate: bool, st: State, evs: seq<Event>): Option<State>
    decreases |evs|
  {
    if evs == [] then Some(st)
    else
      var m := Step(duplicate, st, evs[0]);
      if m.None? then None else Run(duplicate, m.value, evs[1..])
  }

  ghost predicate Reachable(duplicate: bool, st: State) {
    exists evs :: Run(duplicate, INIT, evs) == Some(st)
  }

  // ------------------------------------------------------------------ one call's share of the state

  predicate HoldsFlag(s: Call) {
    s.caller.Locking? || s.caller.Looking? || s.caller.NoPort? || s.caller.Duplicating? || s.caller.NotDuplicated? ||
    s.caller.MakingEvent? || StartingUp(s.caller) || s.worker.Sending? || s.worker.Signalling? || s.worker.Clearing?
  }

  predicate HoldsLock(s: Call) {
    s.caller.Looking? || s.caller.Duplicating? || s.caller.MakingEvent?
  }

  function CallerRefs(pc: CallerPc): nat {
    match pc
    case Checking | Starting | BackingOut | Bail2 => 2
    case Bail1 | DroppingThread | Waiting | Reading | Releasing => 1
    case _ => 0
  }

  function WorkerRefs(pc: WorkerPc): nat {
    if BusySending(pc) || pc.Dropping? then 1 else 0
  }

  /** References the count must show: a started worker's comes out of the two the caller set. */
  function Refs(s: Call): nat {
    CallerRefs(s.caller) + WorkerRefs(s.worker)
  }

  predicate Live(s: Call) {
    Refs(s) > 0 || SettingUp(s.caller) || CleaningUp(s.caller) || s.worker.EndingDone? || s.worker.EndingFree?
  }

  predicate HasPort(s: Call) {
    s.port.Some? && (s.worker.NotStarted? || BusySending(s.worker))
  }

  predicate HasDone(s: Call) {
    s.done.Some? && Live(s) && s.caller != Freeing && s.worker != EndingFree
  }

  predicate Signalled(s: Call) {
    !s.worker.NotStarted? && !s.worker.Sending? && !s.worker.Signalling?
  }

  /** The caller's and the worker's places go together. */
  predicate Together(s: Call) {
    && (AwaitingWorker(s.caller) || s.caller.Releasing? ==>
          !s.worker.NotStarted? && !s.worker.EndingDone? && !s.worker.EndingFree?)
    && (CleaningUp(s.caller) ==> s.worker.NotStarted? || s.worker.Exited?)
    && (s.caller == Reading ==> Signalled(s))
    && (s.worker != NotStarted ==>
          (AwaitingWorker(s.caller) || s.caller.Releasing? || CleaningUp(s.caller) || s.caller.Returned?) &&
          s.port.Some? && s.done.Some?)
    && (s.caller == Starting ==> s.done.Some?)
    && (s.caller.MakingEvent? || StartingUp(s.caller) || s.caller.Bail2? || s.caller.Bail1? || CleaningUp(s.caller) ==>
          s.port.Some?)
    && (Early(s.caller) || SettingUp(s.caller) ==> s.done.None?)
    && (Early(s.caller) || (SettingUp(s.caller) && !s.caller.MakingEvent?) ==> s.port.None?)
    && (s.port.Some? ==> s.frees == if Live(s) then 0 else 1)
    && (Early(s.caller) || SettingUp(s.caller) ==> s.frees == 0)
    && s.frees <= 1
  }

  ghost predicate OwnsContext(i: nat, s: Call, heap: map<Address, Context>) {
    && (Live(s) ==> s.c in heap && heap[s.c] == Context(i, s.port, s.done, Refs(s)))
    && (forall a :: a in heap && heap[a].id == i ==> Live(s) && a == s.c)
  }

  ghost predicate OwnsHandles(i: nat, s: Call, table: map<Handle, Object>) {
    && (HasPort(s) ==> s.port.value in table && table[s.port.value] == Duplicate(i))
    && (HasDone(s) ==> s.done.value in table && table[s.done.value] == DoneEvent(i, Signalled(s)))
    && (s.caller == DroppingThread ==> s.thread in table && table[s.thread] == Thread(i))
    && (forall h :: h in table && table[h].Creator() == Sample(i) ==> Accounted(s, h, table[h]))
  }

  predicate Accounted(s: Call, h: Handle, o: Object) {
    match o
    case Connection => false
    case Duplicate(_) => HasPort(s) && h == s.port.value
    case DoneEvent(_, _) => HasDone(s) && h == s.done.value
    case Thread(_) => s.caller == DroppingThread && h == s.thread
  }

  predicate OwnsFlag(i: nat, s: Call, e: Shared) {
    (e.inFlight && e.flagHolder == i) == HoldsFlag(s)
  }

  predicate OwnsLock(i: nat, s: Call, e: Shared) {
    (e.lock == Some(Sample(i))) == HoldsLock(s) && (s.caller == Duplicating ==> e.gPort.Some?)
  }

  ghost predicate CallOk(i: nat, s: Call, e: Shared) {
    Together(s) && OwnsContext(i, s, e.heap) && OwnsHandles(i, s, e.table) && OwnsFlag(i, s, e) && OwnsLock(i, s, e)
  }

  ghost predicate ReaderOk(r: ReaderPc, e: Shared) {
    && !e.fault
    && (e.lock == Some(Reader) <==> r.Connecting? || r.Ending? || r.Closing? || r.Closed?)
    && (e.gPort.Some? <==> r.Up? || r.Ending?)
    && (e.gPort.Some? ==> e.gPort.value in e.table && e.table[e.gPort.value] == Connection)
    && (r.Closing? ==> r.closing in e.table && e.table[r.closing] == Connection)
    && (forall h :: h in e.table && e.table[h] == Connection ==> e.gPort == Some(h) || r == Closing(h))
  }

  /** Nothing that belongs to anyone but `me` changes between the two states. */
  ghost predicate Frame(me: Owner, e: Shared, f: Shared) {
    && (forall h :: h in e.table && e.table[h].Creator() != me ==> h in f.table && f.table[h] == e.table[h])
    && (forall h :: h in f.table && f.table[h].Creator() != me ==> h in e.table && f.table[h] == e.table[h])
    && (forall a :: a in e.heap && Sample(e.heap[a].id) != me ==> a in f.heap && f.heap[a] == e.heap[a])
    && (forall a :: a in f.heap && Sample(f.heap[a].id) != me ==> a in e.heap && f.heap[a] == e.heap[a])
    && (forall j: nat :: Sample(j) != me ==> (e.inFlight && e.flagHolder == j) == (f.inFlight && f.flagHolder == j))
    && (forall o: Owner :: o != me ==> (e.lock == Some(o)) == (f.lock == Some(o)))
    && (e.gPort != f.gPort ==> me == Reader && e.lock == Some(Reader))
    && e.fault == f.fault
  }

  // ------------------------------------------------------------------ each step keeps its own share

  lemma EarlyLocal(i: nat, s: Call, e: Shared, m: Choice)
    requires Together(s) && OwnsContext(i, s, e.heap) && OwnsFlag(i, s, e) && OwnsLock(i, s, e)
    requires Early(s.caller) && EarlyStep(i, s, e, m).Some?
    ensures var (t, f) := EarlyStep(i, s, e, m).value; Together(t) && OwnsFlag(i, t, f) && OwnsLock(i, t, f)
  {
  }

  lemma EarlyContext(i: nat, s: Call, e: Shared, m: Choice)
    requires Together(s) && OwnsContext(i, s, e.heap)
    requires Early(s.caller) && EarlyStep(i, s, e, m).Some?
    ensures var (t, f) := EarlyStep(i, s, e, m).value; OwnsContext(i, t, f.heap)
  {
  }

  lemma EarlyHandles(i: nat, s: Call, e: Shared, m: Choice)
    requires Together(s) && OwnsContext(i, s, e.heap) && OwnsHandles(i, s, e.table)
    requires Early(s.caller) && EarlyStep(i, s, e, m).Some?
    ensures var (t, f) := EarlyStep(i, s, e, m).value; OwnsHandles(i, t, f.table)
  {
  }

  lemma EarlyFrame(i: nat, s: Call, e: Shared, m: Choice)
    requires CallOk(i, s, e) && Early(s.caller) && EarlyStep(i, s, e, m).Some?
    ensures var (t, f) := EarlyStep(i, s, e, m).value; Frame(Sample(i), e, f)
  {
  }

  lemma SetupLocal(i: nat, s: Call, e: Shared, m: Choice, r: ReaderPc)
    requires Together(s) && OwnsContext(i, s, e.heap) && OwnsFlag(i, s, e) && OwnsLock(i, s, e)
    requires ReaderOk(r, e) && SettingUp(s.caller) && SetupStep(true, i, s, e, m).Some?
    ensures var (t, f) := SetupStep(true, i, s, e, m).value; Together(t) && OwnsFlag(i, t, f) && OwnsLock(i, t, f)
  {
  }

  lemma SetupContext(i: nat, s: Call, e: Shared, m: Choice, r: ReaderPc)
    requires Together(s) && OwnsContext(i, s, e.heap)
    requires ReaderOk(r, e) && SettingUp(s.caller) && SetupStep(true, i, s, e, m).Some?
    ensures var (t, f) := SetupStep(true, i, s, e, m).value; OwnsContext(i, t, f.heap)
  {
  }

  lemma SetupHandles(i: nat, s: Call, e: Shared, m: Choice, r: ReaderPc)
    requires Together(s) && OwnsContext(i, s, e.heap) && OwnsHandles(i, s, e.table)
    requires ReaderOk(r, e) && SettingUp(s.caller) && SetupStep(true, i, s, e, m).Some?
    ensures var (t, f) := SetupStep(true, i, s, e, m).value; OwnsHandles(i, t, f.table)
  {
  }

  lemma SetupFrame(i: nat, s: Call, e: Shared, m: Choice, r: ReaderPc)
    requires CallOk(i, s, e) && ReaderOk(r, e) && SettingUp(s.caller) && SetupStep(true, i, s, e, m).Some?
    ensures var (t, f) := SetupStep(true, i, s, e, m).value; Frame(Sample(i), e, f)
  {
  }

  lemma StartLocal(i: nat, s: Call, e: Shared, m: Choice)
    requires Together(s) && OwnsContext(i, s, e.heap) && OwnsFlag(i, s, e) && OwnsLock(i, s, e)
    requires StartingUp(s.caller) && StartStep(i, s, e, m).Some?
    ensures var (t, f) := StartStep(i, s, e, m).value; Together(t) && OwnsFlag(i, t, f) && OwnsLock(i, t, f)
  {
  }

  lemma StartContext(i: nat, s: Call, e: Shared, m: Choice)
    requires Together(s) && OwnsContext(i, s, e.heap)
    requires StartingUp(s.caller) && StartStep(i, s, e, m).Some?
    ensures var (t, f) := StartStep(i, s, e, m).value; OwnsContext(i, t, f.heap)
  {
  }

  lemma StartHandles(i: nat, s: Call, e: Shared, m: Choice)
    requires s.worker == NotStarted && s.port.Some? && OwnsHandles(i, s, e.table)
    requires StartingUp(s.caller) && StartStep(i, s, e, m).Some?
    ensures var (t, f) := StartStep(i, s, e, m).value; OwnsHandles(i, t, f.table)
  {
  }

  lemma StartFrame(i: nat, s: Call, e: Shared, m: Choice)
    requires CallOk(i, s, e) && StartingUp(s.caller) && StartStep(i, s, e, m).Some?
    ensures var (t, f) := StartStep(i, s, e, m).value; Frame(Sample(i), e, f)
  {
  }

  lemma WaitLocal(i: nat, s: Call, e: Shared, m: Choice)
    requires CallOk(i, s, e)
    requires AwaitingWorker(s.caller) && WaitStep(s, e, m).Some?
    ensures var (t, f) := WaitStep(s, e, m).value; Together(t) && OwnsFlag(i, t, f) && OwnsLock(i, t, f)
  {
  }

  lemma WaitContext(i: nat, s: Call, e: Shared, m: Choice)
    requires Together(s) && OwnsContext(i, s, e.heap)
    requires AwaitingWorker(s.caller) && WaitStep(s, e, m).Some?
    ensures var (t, f) := WaitStep(s, e, m).value; OwnsContext(i, t, f.heap)
  {
  }

  lemma WaitHandles(i: nat, s: Call, e: Shared, m: Choice)
    requires OwnsHandles(i, s, e.table)
    requires AwaitingWorker(s.caller) && WaitStep(s, e, m).Some?
    ensures var (t, f) := WaitStep(s, e, m).value; OwnsHandles(i, t, f.table)
  {
  }

  lemma WaitFrame(i: nat, s: Call, e: Shared, m: Choice)
    requires CallOk(i, s, e) && AwaitingWorker(s.caller) && WaitStep(s, e, m).Some?
    ensures var (t, f) := WaitStep(s, e, m).value; Frame(Sample(i), e, f)
  {
  }

  lemma DropLocal(i: nat, s: Call, e: Shared)
    requires Together(s) && OwnsContext(i, s, e.heap) && OwnsFlag(i, s, e) && OwnsLock(i, s, e)
    requires LettingGo(s.caller) && DropStep(s, e).Some?
    ensures var (t, f) := DropStep(s, e).value; Together(t) && OwnsFlag(i, t, f) && OwnsLock(i, t, f)
  {
  }

  lemma DropContext(i: nat, s: Call, e: Shared)
    requires Together(s) && OwnsContext(i, s, e.heap)
    requires LettingGo(s.caller) && DropStep(s, e).Some?
    ensures var (t, f) := DropStep(s, e).value; OwnsContext(i, t, f.heap)
  {
  }

  lemma DropHandles(i: nat, s: Call, e: Shared)
    requires Together(s) && OwnsContext(i, s, e.heap) && OwnsHandles(i, s, e.table)
    requires LettingGo(s.caller) && DropStep(s, e).Some?
    ensures var (t, f) := DropStep(s, e).value; OwnsHandles(i, t, f.table)
  {
  }

  lemma DropFrame(i: nat, s: Call, e: Shared)
    requires CallOk(i, s, e) && LettingGo(s.caller) && DropStep(s, e).Some?
    ensures var (t, f) := DropStep(s, e).value; Frame(Sample(i), e, f)
  {
  }

  lemma EndLocal(i: nat, s: Call, e: Shared)
    requires Together(s) && OwnsContext(i, s, e.heap) && OwnsFlag(i, s, e) && OwnsLock(i, s, e)
    requires CleaningUp(s.caller) && EndStep(s, e).Some?
    ensures var (t, f) := EndStep(s, e).value; Together(t) && OwnsFlag(i, t, f) && OwnsLock(i, t, f)
  {
  }

  lemma EndContext(i: nat, s: Call, e: Shared)
    requires Together(s) && OwnsContext(i, s, e.heap)
    requires CleaningUp(s.caller) && EndStep(s, e).Some?
    ensures var (t, f) := EndStep(s, e).value; OwnsContext(i, t, f.heap)
  {
  }

  lemma EndHandles(i: nat, s: Call, e: Shared)
    requires Together(s) && OwnsContext(i, s, e.heap) && OwnsHandles(i, s, e.table)
    requires CleaningUp(s.caller) && EndStep(s, e).Some?
    ensures var (t, f) := EndStep(s, e).value; OwnsHandles(i, t, f.table)
  {
  }

  lemma EndFrame(i: nat, s: Call, e: Shared)
    requires CallOk(i, s, e) && CleaningUp(s.caller) && EndStep(s, e).Some?
    ensures var (t, f) := EndStep(s, e).value; Frame(Sample(i), e, f)
  {
  }

  lemma SendLocal(i: nat, s: Call, e: Shared)
    requires Together(s) && OwnsContext(i, s, e.heap) && OwnsFlag(i, s, e) && OwnsLock(i, s, e)
    requires BusySending(s.worker) && SendStep(s, e).Some?
    ensures var (t, f) := SendStep(s, e).value; Together(t) && OwnsFlag(i, t, f) && OwnsLock(i, t, f)
  {
  }

  lemma SendContext(i: nat, s: Call, e: Shared)
    requires Together(s) && OwnsContext(i, s, e.heap)
    requires BusySending(s.worker) && SendStep(s, e).Some?
    ensures var (t, f) := SendStep(s, e).value; OwnsContext(i, t, f.heap)
  {
  }

  lemma SendHandles(i: nat, s: Call, e: Shared)
    requires s.port.Some? && s.done.Some? && OwnsContext(i, s, e.heap) && OwnsHandles(i, s, e.table)
    requires BusySending(s.worker) && SendStep(s, e).Some?
    ensures var (t, f) := SendStep(s, e).value; OwnsHandles(i, t, f.table)
  {
  }

  lemma SendFrame(i: nat, s: Call, e: Shared)
    requires s.port.Some? && s.done.Some? && !CleaningUp(s.caller)
    requires OwnsContext(i, s, e.heap) && OwnsHandles(i, s, e.table) && OwnsFlag(i, s, e)
    requires BusySending(s.worker) && SendStep(s, e).Some?
    ensures var (t, f) := SendStep(s, e).value; Frame(Sample(i), e, f)
  {
  }

  lemma WorkerEndLocal(i: nat, s: Call, e: Shared)
    requires Together(s) && OwnsContext(i, s, e.heap) && OwnsFlag(i, s, e) && OwnsLock(i, s, e)
    requires Leaving(s.worker) && WorkerEndStep(s, e).Some?
    ensures var (t, f) := WorkerEndStep(s, e).value; Together(t) && OwnsFlag(i, t, f) && OwnsLock(i, t, f)
  {
  }

  lemma WorkerEndContext(i: nat, s: Call, e: Shared)
    requires Together(s) && OwnsContext(i, s, e.heap)
    requires Leaving(s.worker) && WorkerEndStep(s, e).Some?
    ensures var (t, f) := WorkerEndStep(s, e).value; OwnsContext(i, t, f.heap)
  {
  }

  lemma WorkerEndHandles(i: nat, s: Call, e: Shared)
    requires Together(s) && OwnsContext(i, s, e.heap) && OwnsHandles(i, s, e.table)
    requires Leaving(s.worker) && WorkerEndStep(s, e).Some?
    ensures var (t, f) := WorkerEndStep(s, e).value; OwnsHandles(i, t, f.table)
  {
  }

  lemma WorkerEndFrame(i: nat, s: Call, e: Shared)
    requires CallOk(i, s, e) && Leaving(s.worker) && WorkerEndStep(s, e).Some?
    ensures var (t, f) := WorkerEndStep(s, e).value; Frame(Sample(i), e, f)
  {
  }

  lemma ReaderKeeps(r: ReaderPc, e: Shared, m: Choice)
    requires ReaderOk(r, e) && ReaderStep(r, e, m).Some?
    ensures var (q, f) := ReaderStep(r, e, m).value; ReaderOk(q, f) && Frame(Reader, e, f)
  {
  }

  lemma CallFramed(j: nat, s: Call, me: Owner, e: Shared, f: Shared)
    requires CallOk(j, s, e) && Frame(me, e, f) && me != Sample(j)
    ensures CallOk(j, s, f)
  {
  }

  lemma ReaderFramed(r: ReaderPc, me: Owner, e: Shared, f: Shared)
    requires ReaderOk(r, e) && Frame(me, e, f) && me != Reader
    ensures ReaderOk(r, f)
  {
  }

  lemma CallerBeforeKeeps(i: nat, s: Call, e: Shared, m: Choice, r: ReaderPc)
    requires CallOk(i, s, e) && ReaderOk(r, e) && CallerStep(true, i, s, e, m).Some?
    requires Early(s.caller) || SettingUp(s.caller)
    ensures var (t, f) := CallerStep(true, i, s, e, m).value; CallOk(i, t, f) && Frame(Sample(i), e, f)
  {
    if Early(s.caller) {
      EarlyLocal(i, s, e, m); EarlyContext(i, s, e, m); EarlyHandles(i, s, e, m); EarlyFrame(i, s, e, m);
    } else {
      SetupLocal(i, s, e, m, r); SetupContext(i, s, e, m, r); SetupHandles(i, s, e, m, r); SetupFrame(i, s, e, m, r);
    }
  }

  lemma CallerDuringKeeps(i: nat, s: Call, e: Shared, m: Choice)
    requires CallOk(i, s, e) && CallerStep(true, i, s, e, m).Some?
    requires StartingUp(s.caller) || AwaitingWorker(s.caller)
    ensures var (t, f) := CallerStep(true, i, s, e, m).value; CallOk(i, t, f) && Frame(Sample(i), e, f)
  {
    if StartingUp(s.caller) {
      StartLocal(i, s, e, m); StartContext(i, s, e, m); StartHandles(i, s, e, m); StartFrame(i, s, e, m);
    } else {
      WaitLocal(i, s, e, m); WaitContext(i, s, e, m); WaitHandles(i, s, e, m); WaitFrame(i, s, e, m);
    }
  }

  lemma CallerAfterKeeps(i: nat, s: Call, e: Shared, m: Choice)
    requires CallOk(i, s, e) && CallerStep(true, i, s, e, m).Some?
    requires LettingGo(s.caller) || CleaningUp(s.caller)
    ensures var (t, f) := CallerStep(true, i, s, e, m).value; CallOk(i, t, f) && Frame(Sample(i), e, f)
  {
    if CleaningUp(s.caller) {
      EndLocal(i, s, e); EndContext(i, s, e); EndHandles(i, s, e); EndFrame(i, s, e);
    } else {
      DropLocal(i, s, e); DropContext(i, s, e); DropHandles(i, s, e); DropFrame(i, s, e);
    }
  }

  lemma CallerKeeps(i: nat, s: Call, e: Shared, m: Choice, r: ReaderPc)
    requires CallOk(i, s, e) && ReaderOk(r, e) && CallerStep(true, i, s, e, m).Some?
    ensures var (t, f) := CallerStep(true, i, s, e, m).value; CallOk(i, t, f) && Frame(Sample(i), e, f)
  {
    match s.caller
    case Claiming | Locking | Looking | NoPort => CallerBeforeKeeps(i, s, e, m, r);
    case Duplicating | NotDuplicated | Discarding | MakingEvent => CallerBeforeKeeps(i, s, e, m, r);
    case Checking | Starting | BackingOut => CallerDuringKeeps(i, s, e, m);
    case DroppingThread | Waiting | Reading => CallerDuringKeeps(i, s, e, m);
    case Bail2 | Bail1 | Releasing => CallerAfterKeeps(i, s, e, m);
    case ClosingDone | Freeing => CallerAfterKeeps(i, s, e, m);
    case Returned =>
  }

  lemma WorkerKeeps(i: nat, s: Call, e: Shared)
    requires CallOk(i, s, e) && WorkerStep(s, e).Some?
    ensures var (t, f) := WorkerStep(s, e).value; CallOk(i, t, f) && Frame(Sample(i), e, f)
  {
    match s.worker
    case NotStarted | Exited =>
    case Sending | Signalling | Clearing | ClosingPort =>
      SendLocal(i, s, e); SendContext(i, s, e); SendHandles(i, s, e); SendFrame(i, s, e);
    case Dropping | EndingDone | EndingFree =>
      WorkerEndLocal(i, s, e); WorkerEndContext(i, s, e); WorkerEndHandles(i, s, e); WorkerEndFrame(i, s, e);
  }

  // ------------------------------------------------------------------ the invariant of every run

  ghost predicate CallsOk(calls: seq<Call>, e: Shared) {
    forall j :: 0 <= j < |calls| ==> CallOk(j, calls[j], e)
  }

  /** The flag, the lock and every tagged object belong to some call that exists. */
  ghost predicate NoStrangers(n: nat, e: Shared) {
    && (e.inFlight ==> e.flagHolder < n)
    && (forall h :: h in e.table && e.table[h] != Connection ==> e.table[h].Creator().id < n)
    && (forall a :: a in e.heap ==> e.heap[a].id < n)
    && (e.lock.Some? && e.lock.value != Reader ==> e.lock.value.id < n)
  }

  ghost predicate Inv(st: State) {
    CallsOk(st.calls, st.env) && ReaderOk(st.reader, st.env) && NoStrangers(|st.calls|, st.env)
  }

  lemma CallMoveKeeps(st: State, i: nat, t: Call, f: Shared)
    requires Inv(st) && i < |st.calls| && CallOk(i, t, f) && Frame(Sample(i), st.env, f)
    ensures Inv(st.(calls := st.calls[i := t], env := f))
  {
    ReaderFramed(st.reader, Sample(i), st.env, f);
    forall j | 0 <= j < |st.calls| && j != i ensures CallOk(j, st.calls[j], f) {
      CallFramed(j, st.calls[j], Sample(i), st.env, f);
    }
    StrangersFramed(|st.calls|, Sample(i), st.env, f);
  }

  lemma StrangersFramed(n: nat, me: Owner, e: Shared, f: Shared)
    requires NoStrangers(n, e) && Frame(me, e, f) && (me.Sample? ==> me.id < n)
    ensures NoStrangers(n, f)
  {
    var j := f.flagHolder;
    assert me != Sample(j) ==> (e.inFlight && e.flagHolder == j) == (f.inFlight && f.flagHolder == j);
  }

  lemma StepKeeps(st: State, ev: Event)
    requires Inv(st) && Step(true, st, ev).Some?
    ensures Inv(Step(true, st, ev).value)
  {
    match ev
    case NewCall => NewKeeps(st);
    case Caller(i, m) =>
      CallerKeeps(i, st.calls[i], st.env, m, st.reader);
      var (t, f) := CallerStep(true, i, st.calls[i], st.env, m).value;
      CallMoveKeeps(st, i, t, f);
    case Worker(i) =>
      WorkerKeeps(i, st.calls[i], st.env);
      var (t, f) := WorkerStep(st.calls[i], st.env).value;
      CallMoveKeeps(st, i, t, f);
    case PortThread(m) =>
      ReaderKeeps(st.reader, st.env, m);
      var (q, f) := ReaderStep(st.reader, st.env, m).value;
      forall j | 0 <= j < |st.calls| ensures CallOk(j, st.calls[j], f) {
        CallFramed(j, st.calls[j], Reader, st.env, f);
      }
      StrangersFramed(|st.calls|, Reader, st.env, f);
  }

  predicate JustArrived(s: Call) {
    s.caller == Claiming && s.worker == NotStarted && s.port == None && s.done == None && s.frees == 0
  }

  lemma ArrivedIsIdle(s: Call)
    requires JustArrived(s)
    ensures !Live(s) && !HasPort(s) && !HasDone(s) && Together(s) && !HoldsFlag(s) && !HoldsLock(s)
  {
  }

  lemma NewOwnsNothing(n: nat, s: Call, e: Shared)
    requires NoStrangers(n, e) && JustArrived(s)
    ensures OwnsContext(n, s, e.heap) && OwnsHandles(n, s, e.table)
  {
    ArrivedIsIdle(s);
    forall h | h in e.table ensures e.table[h].Creator() != Sample(n) {
      if e.table[h] != Connection {
        assert e.table[h].Creator().id < n;
      }
    }
  }

  lemma NewOk(n: nat, s: Call, e: Shared)
    requires NoStrangers(n, e) && JustArrived(s)
    ensures CallOk(n, s, e)
  {
    NewOwnsNothing(n, s, e);
    ArrivedIsIdle(s);
    assert OwnsFlag(n, s, e) && OwnsLock(n, s, e);
  }

  lemma CallsGrow(calls: seq<Call>, s: Call, e: Shared)
    requires CallsOk(calls, e) && CallOk(|calls|, s, e)
    ensures CallsOk(calls + [s], e)
  {
  }

  lemma NewKeeps(st: State)
    requires Inv(st)
    ensures Inv(Step(true, st, NewCall).value)
  {
    var s := Call(Claiming, NotStarted, 0, 0, None, None, 0);
    NewOk(|st.calls|, s, st.env);
    CallsGrow(st.calls, s, st.env);
  }

  lemma {:induction false} RunKeeps(st: State, evs: seq<Event>)
    requires Inv(st) && Run(true, st, evs).Some?
    ensures Inv(Run(true, st, evs).value)
    decreases |evs|
  {
    if evs != [] {
      StepKeeps(st, evs[0]);
      RunKeeps(Step(true, st, evs[0]).value, evs[1..]);
    }
  }

  lemma ReachableHolds(st: State)
    requires Reachable(true, st)
    ensures Inv(st)
  {
    var evs :| Run(true, INIT, evs) == Some(st);
    RunKeeps(INIT, evs);
  }

  // ------------------------------------------------------------------ what every run guarantees

  /** No step ever uses a freed context or closes, signals or waits on a number that names nothing. */
  lemma NothingUsedAfterItsEnd(st: State)
    requires Reachable(true, st)
    ensures !st.env.fault
  {
    ReachableHolds(st);
  }

  predicate Touches(s: Call) {
    SettingUp(s.caller) || CallerRefs(s.caller) > 0 || CleaningUp(s.caller) ||
    WorkerRefs(s.worker) > 0 || s.worker.EndingDone? || s.worker.EndingFree?
  }

  /** Although addresses are reused, whoever still works on a context works on its own call's, with the
      count showing exactly who is left. */
  lemma ContextOutlivesItsHolders(st: State, i: nat)
    requires Reachable(true, st) && i < |st.calls| && Touches(st.calls[i])
    ensures st.calls[i].c in st.env.heap && st.env.heap[st.calls[i].c].id == i
    ensures st.env.heap[st.calls[i].c].refs == Refs(st.calls[i])
  {
    ReachableHolds(st);
    assert CallOk(i, st.calls[i], st.env);
  }

  /** A context is freed at most once, and once exactly when both sides have let go of it. */
  lemma FreedExactlyOnce(st: State, i: nat)
    requires Reachable(true, st) && i < |st.calls|
    ensures st.calls[i].frees <= 1
    ensures st.calls[i].port.Some? ==> (st.calls[i].frees == 1 <==> !Touches(st.calls[i]))
  {
    ReachableHolds(st);
    assert CallOk(i, st.calls[i], st.env);
  }

  /** The event is there for as long as the caller may wait on it or the worker may signal it, and the
      caller reads the reply only after the worker has written it. */
  lemma DoneOutlivesItsHolders(st: State, i: nat)
    requires Reachable(true, st) && i < |st.calls|
    requires AwaitingWorker(st.calls[i].caller) || st.calls[i].worker.Sending? || st.calls[i].worker.Signalling?
    ensures var s, e := st.calls[i], st.env;
            s.c in e.heap && e.heap[s.c].done.Some? && e.heap[s.c].done.value in e.table &&
            e.table[e.heap[s.c].done.value] == DoneEvent(i, Signalled(s)) && (s.caller == Reading ==> Signalled(s))
  {
    ReachableHolds(st);
    assert CallOk(i, st.calls[i], st.env);
  }

  /** At most one worker is inside FilterSendMessage. */
  lemma OneSender(st: State, i: nat, j: nat)
    requires Reachable(true, st) && i < |st.calls| && j < |st.calls|
    requires st.calls[i].worker == Sending && st.calls[j].worker == Sending
    ensures i == j
  {
    ReachableHolds(st);
    assert CallOk(i, st.calls[i], st.env) && CallOk(j, st.calls[j], st.env);
  }

  /** The flag is never left set: somebody who will clear it is still running. */
  lemma FlagHasAHolder(st: State)
    requires Reachable(true, st) && st.env.inFlight
    ensures st.env.flagHolder < |st.calls| && HoldsFlag(st.calls[st.env.flagHolder])
  {
    ReachableHolds(st);
    assert CallOk(st.env.flagHolder, st.calls[st.env.flagHolder], st.env);
  }

  /** Whatever numbers are handed out, the worker's CloseHandle closes its own duplicate, which is not what
      g_Port names. */
  lemma WorkerClosesItsOwn(st: State, i: nat)
    requires Reachable(true, st) && i < |st.calls| && st.calls[i].worker == ClosingPort
    ensures var s, e := st.calls[i], st.env;
            s.c in e.heap && e.heap[s.c].port.Some? && e.heap[s.c].port.value in e.table &&
            e.table[e.heap[s.c].port.value] == Duplicate(i) && e.gPort != e.heap[s.c].port
  {
    ReachableHolds(st);
    assert CallOk(i, st.calls[i], st.env);
  }

  /** g_Port always names a live connection, and no step of a caller or a worker changes or closes it. */
  lemma OnlyThePortThreadCloses(st: State, ev: Event)
    requires Reachable(true, st) && Step(true, st, ev).Some? && st.env.gPort.Some?
    ensures var h, after := st.env.gPort.value, Step(true, st, ev).value;
            h in st.env.table && st.env.table[h] == Connection &&
            (!ev.PortThread? ==> after.env.gPort == Some(h) && h in after.env.table && after.env.table[h] == Connection)
  {
    ReachableHolds(st);
    StepKeeps(st, ev);
    match ev
    case Caller(i, m) => CallerKeeps(i, st.calls[i], st.env, m, st.reader);
    case Worker(i) => WorkerKeeps(i, st.calls[i], st.env);
    case _ =>
  }

  predicate AllOver(st: State) {
    st.reader == Down && forall j :: 0 <= j < |st.calls| ==> Over(st.calls[j])
  }

  predicate Over(s: Call) {
    s.caller == Returned && (s.worker.NotStarted? || s.worker.Exited?)
  }

  /** The worker never started although the handle had been duplicated. */
  predicate LeftADuplicate(s: Call, h: Handle) {
    s.worker == NotStarted && s.port == Some(h)
  }

  /** A finished call owns nothing but the duplicate its failure exit left. */
  lemma OverOwnsLittle(i: nat, s: Call, e: Shared)
    requires CallOk(i, s, e) && Over(s)
    ensures forall a :: a in e.heap ==> e.heap[a].id != i
    ensures !(e.inFlight && e.flagHolder == i)
    ensures forall h :: h in e.table && e.table[h].Creator() == Sample(i) ==> LeftADuplicate(s, h)
    ensures forall h :: LeftADuplicate(s, h) ==> h in e.table
  {
  }

  lemma AllOverHasNoContext(st: State, a: Address)
    requires Inv(st) && AllOver(st)
    ensures a !in st.env.heap && !st.env.inFlight
  {
    if a in st.env.heap {
      OverOwnsLittle(st.env.heap[a].id, st.calls[st.env.heap[a].id], st.env);
    }
    if st.env.inFlight {
      OverOwnsLittle(st.env.flagHolder, st.calls[st.env.flagHolder], st.env);
    }
  }

  lemma AllOverHasNoContexts(st: State)
    requires Inv(st) && AllOver(st)
    ensures st.env.heap == map[] && !st.env.inFlight
  {
    AllOverHasNoContext(st, 0);
    forall a ensures a !in st.env.heap.Keys {
      AllOverHasNoContext(st, a);
    }
    assert st.env.heap.Keys == {};
  }

  lemma AllOverHasOnlyDuplicates(st: State, h: Handle)
    requires Inv(st) && AllOver(st) && h in st.env.table
    ensures st.env.table[h] != Connection && st.env.table[h].Creator().id < |st.calls|
    ensures LeftADuplicate(st.calls[st.env.table[h].Creator().id], h)
  {
    assert st.env.table[h] != Connection;
    var i := st.env.table[h].Creator().id;
    OverOwnsLittle(i, st.calls[i], st.env);
  }

  /** When everything has finished the heap is empty and the table holds exactly one duplicate for each
      call whose event or thread could not be created: those exits do not close it. */
  lemma OnlyFailedStartsLeak(st: State, h: Handle)
    requires Reachable(true, st) && AllOver(st)
    ensures st.env.heap == map[] && !st.env.inFlight
    ensures h in st.env.table <==> exists i :: 0 <= i < |st.calls| && LeftADuplicate(st.calls[i], h)
  {
    ReachableHolds(st);
    AllOverHasNoContexts(st);
    if h in st.env.table {
      AllOverHasOnlyDuplicates(st, h);
      var i := st.env.table[h].Creator().id;
      assert LeftADuplicate(st.calls[i], h);
    }
    forall i | 0 <= i < |st.calls| && LeftADuplicate(st.calls[i], h) ensures h in st.env.table {
      OverOwnsLittle(i, st.calls[i], st.env);
    }
  }

  // ------------------------------------------------------------------ every call gets to its end

  /** How many steps the caller has left at most, ... */
  function CallerLeft(pc: CallerPc): nat {
    match pc
    case Claiming => 16 case Locking => 15 case Looking => 14 case NoPort => 1
    case Duplicating => 13 case NotDuplicated => 3 case Discarding => 2 case MakingEvent => 12
    case Checking => 11 case Starting => 10 case BackingOut => 9 case Bail2 => 6 case Bail1 => 5
    case DroppingThread => 9 case Waiting => 8 case Reading => 7 case Releasing => 4
    case ClosingDone => 3 case Freeing => 2 case Returned => 0
  }

  /** ... and the worker. */
  function WorkerLeft(pc: WorkerPc): nat {
    match pc
    case NotStarted => 8 case Sending => 7 case Signalling => 6 case Clearing => 5 case ClosingPort => 4
    case Dropping => 3 case EndingDone => 2 case EndingFree => 1 case Exited => 0
  }

  /** No step repeats itself: a caller returns after at most sixteen of its own, a worker exits after seven. */
  lemma EveryStepIsProgress(st: State, ev: Event, i: nat)
    requires Reachable(true, st) && i < |st.calls| && Step(true, st, ev).Some?
    ensures var t := Step(true, st, ev).value;
            && i < |t.calls|
            && (ev.Caller? && ev.i == i ==> CallerLeft(t.calls[i].caller) < CallerLeft(st.calls[i].caller))
            && (ev.Worker? && ev.i == i ==> WorkerLeft(t.calls[i].worker) < WorkerLeft(st.calls[i].worker))
            && (ev.Caller? && ev.i == i ==> WorkerLeft(t.calls[i].worker) <= WorkerLeft(st.calls[i].worker))
            && (!(ev.Caller? && ev.i == i) ==> t.calls[i].caller == st.calls[i].caller)
  {
    ReachableHolds(st);
    StepKeeps(st, ev);
    match ev
    case Caller(j, m) =>
      if j == i {
        CallerAdvances(i, st.calls[i], st.env, m);
      }
    case Worker(j) =>
      if j == i {
        WorkerAdvances(st.calls[i], st.env);
      }
    case _ =>
  }

  lemma WorkerAdvances(s: Call, e: Shared)
    requires WorkerStep(s, e).Some? && !WorkerStep(s, e).value.1.fault
    ensures var t := WorkerStep(s, e).value.0; WorkerLeft(t.worker) < WorkerLeft(s.worker) && t.caller == s.caller
  {
  }

  lemma CallerAdvances(i: nat, s: Call, e: Shared, m: Choice)
    requires s.caller == Starting ==> s.worker == NotStarted
    requires CallerStep(true, i, s, e, m).Some? && !CallerStep(true, i, s, e, m).value.1.fault
    ensures var t := CallerStep(true, i, s, e, m).value.0;
            CallerLeft(t.caller) < CallerLeft(s.caller) && WorkerLeft(t.worker) <= WorkerLeft(s.worker)
  {
  }

  /** And none is stuck: a caller can always go on, if only by giving up, unless it waits for the lock, ... */
  lemma CallerCanGoOn(st: State, i: nat)
    requires Reachable(true, st) && i < |st.calls|
    ensures Step(true, st, Caller(i, Fails)).Some? <==>
            st.calls[i].caller != Returned && !(st.calls[i].caller == Locking && st.env.lock.Some?)
  {
    ReachableHolds(st);
    assert CallOk(i, st.calls[i], st.env);
  }

  lemma WorkerCanGoOn(st: State, i: nat)
    requires i < |st.calls|
    ensures Step(true, st, Worker(i)).Some? <==> !st.calls[i].worker.NotStarted? && !st.calls[i].worker.Exited?
  {
  }

  /** ... which is held by the port thread or a caller that can. */
  lemma LockHolderCanGoOn(st: State)
    requires Reachable(true, st) && st.env.lock.Some?
    ensures match st.env.lock.value
            case Reader => Step(true, st, PortThread(Fails)).Some?
            case Sample(i) => i < |st.calls| && Step(true, st, Caller(i, Fails)).Some?
  {
    ReachableHolds(st);
    if st.env.lock.value.Sample? {
      var i := st.env.lock.value.id;
      assert CallOk(i, st.calls[i], st.env);
      CallerCanGoOn(st, i);
    }
  }

  /** The wait ends without a timeout exactly when the worker has signalled, and then the reply is read. */
  lemma WaitEndsIff(st: State, i: nat, number: nat)
    requires Reachable(true, st) && i < |st.calls| && st.calls[i].caller == Waiting
    ensures Step(true, st, Caller(i, Gives(number))).Some? <==> Signalled(st.calls[i])
    ensures Signalled(st.calls[i]) ==> Step(true, st, Caller(i, Gives(number))).value.calls[i].caller == Reading
    ensures Step(true, st, Caller(i, Fails)).Some?
    ensures Step(true, st, Caller(i, Fails)).value.calls[i].caller == Releasing
  {
    ReachableHolds(st);
    assert CallOk(i, st.calls[i], st.env);
  }

  /** A round-trip that is under way: the caller waits, its worker is in the send on its own duplicate. */
  lemma RoundTripStarts() returns (st: State)
    ensures Reachable(true, st) && st.reader == Up
    ensures st.env == Shared(map[7 := Connection, 8 := Duplicate(0), 9 := DoneEvent(0, false), 10 := Thread(0)],
                             map[1 := Context(0, Some(8), Some(9), 2)], true, 0, None, Some(7), false)
    ensures st.calls == [Call(DroppingThread, Sending, 1, 10, Some(8), Some(9), 0)]
  {
    st := HandleDuplicated();
    st := Extend(true, st, Caller(0, Gives(9)));
    st := Extend(true, st, Caller(0, Fails));
    st := Extend(true, st, Caller(0, Gives(10)));
  }

  lemma HandleDuplicated() returns (st: State)
    ensures Reachable(true, st) && st.reader == Up
    ensures st.env == Shared(map[7 := Connection, 8 := Duplicate(0)], map[1 := Context(0, Some(8), None, 0)], true, 0,
                             Some(Sample(0)), Some(7), false)
    ensures st.calls == [Call(MakingEvent, NotStarted, 1, 0, Some(8), None, 0)]
  {
    st := CallArrives(true);
    st := Extend(true, st, Caller(0, Fails));
    st := Extend(true, st, Caller(0, Fails));
    st := Extend(true, st, Caller(0, Gives(1)));
    st := Extend(true, st, Caller(0, Gives(8)));
  }

  lemma CallArrives(duplicate: bool) returns (st: State)
    ensures Reachable(duplicate, st) && st.reader == Up
    ensures st.env == Shared(map[7 := Connection], map[], false, 0, None, Some(7), false)
    ensures st.calls == [Call(Claiming, NotStarted, 0, 0, None, None, 0)]
  {
    st := INIT;
    assert Run(duplicate, INIT, []) == Some(st);
    st := Extend(duplicate, st, PortThread(Fails));
    st := Extend(duplicate, st, PortThread(Gives(7)));
    st := Extend(duplicate, st, NewCall);
  }

  lemma ReplyArrives() returns (st: State)
    ensures Reachable(true, st) && st.reader == Up
    ensures st.env == Shared(map[7 := Connection, 8 := Duplicate(0), 9 := DoneEvent(0, true)],
                             map[1 := Context(0, Some(8), Some(9), 2)], false, 0, None, Some(7), false)
    ensures st.calls == [Call(Reading, ClosingPort, 1, 10, Some(8), Some(9), 0)]
  {
    st := WorkerSignals();
    st := Extend(true, st, Worker(0));
    st := Extend(true, st, Caller(0, Gives(0)));
  }

  lemma WorkerSignals() returns (st: State)
    ensures Reachable(true, st) && st.reader == Up
    ensures st.env == Shared(map[7 := Connection, 8 := Duplicate(0), 9 := DoneEvent(0, true)],
                             map[1 := Context(0, Some(8), Some(9), 2)], true, 0, None, Some(7), false)
    ensures st.calls == [Call(Waiting, Clearing, 1, 10, Some(8), Some(9), 0)]
  {
    st := RoundTripStarts();
    st := Extend(true, st, Caller(0, Fails));
    st := Extend(true, st, Worker(0));
    st := Extend(true, st, Worker(0));
  }

  lemma WorkerFinishes(st: State) returns (t: State)
    requires Reachable(true, st) && st.calls == [Call(Reading, ClosingPort, 1, 10, Some(8), Some(9), 0)]
    requires st.env == Shared(map[7 := Connection, 8 := Duplicate(0), 9 := DoneEvent(0, true)],
                              map[1 := Context(0, Some(8), Some(9), 2)], false, 0, None, Some(7), false)
    ensures Reachable(true, t) && t.calls == [Call(Reading, Exited, 1, 10, Some(8), Some(9), 0)]
    ensures t.env == Shared(map[7 := Connection, 9 := DoneEvent(0, true)], map[1 := Context(0, Some(8), Some(9), 1)],
                            false, 0, None, Some(7), false)
  {
    t := Extend(true, st, Worker(0));
    t := Extend(true, t, Worker(0));
  }

  lemma CallerReleases(st: State) returns (t: State)
    requires Reachable(true, st) && st.calls == [Call(Reading, Exited, 1, 10, Some(8), Some(9), 0)]
    requires st.env == Shared(map[7 := Connection, 9 := DoneEvent(0, true)], map[1 := Context(0, Some(8), Some(9), 1)],
                              false, 0, None, Some(7), false)
    ensures Reachable(true, t) && t.calls == [Call(ClosingDone, Exited, 1, 10, Some(8), Some(9), 0)]
    ensures t.env == st.env.(heap := map[1 := Context(0, Some(8), Some(9), 0)])
  {
    t := Extend(true, st, Caller(0, Fails));
    t := Extend(true, t, Caller(0, Fails));
  }

  /** A call that gets its reply: it reads it, and in the end nothing is left but the connection. */
  lemma RoundTripCompletes()
    ensures exists st :: Reachable(true, st) && |st.calls| == 1 && st.calls[0].caller == Reading
    ensures exists st :: Reachable(true, st) && |st.calls| == 1 && Over(st.calls[0]) && st.calls[0].frees == 1 &&
                         st.env == Shared(map[7 := Connection], map[], false, 0, None, Some(7), false)
  {
    var st := ReplyArrives();
    assert st.calls[0].caller == Reading;
    st := WorkerFinishes(st);
    st := CallerReleases(st);
    st := CallerCleansUp(st);
  }

  lemma CallerCleansUp(st: State) returns (t: State)
    requires Reachable(true, st)
    requires st.env == Shared(map[7 := Connection, 9 := DoneEvent(0, true)], map[1 := Context(0, Some(8), Some(9), 0)],
                              false, 0, None, Some(7), false)
    requires st.calls == [Call(ClosingDone, Exited, 1, 10, Some(8), Some(9), 0)]
    ensures Reachable(true, t) && t.calls == [Call(Returned, Exited, 1, 10, Some(8), Some(9), 1)]
    ensures t.env == Shared(map[7 := Connection], map[], false, 0, None, Some(7), false)
  {
    t := Extend(true, st, Caller(0, Fails));
    t := Extend(true, t, Caller(0, Fails));
  }

  // ------------------------------------------------------------------ the earlier form

  lemma Extend(duplicate: bool, st: State, ev: Event) returns (t: State)
    requires Reachable(duplicate, st) && Step(duplicate, st, ev).Some?
    ensures t == Step(duplicate, st, ev).value && Reachable(duplicate, t)
  {
    t := Step(duplicate, st, ev).value;
    var evs :| Run(duplicate, INIT, evs) == Some(st);
    RunSnoc(duplicate, INIT, evs, ev);
    assert Run(duplicate, INIT, evs + [ev]) == Some(t);
  }

  lemma {:induction false} RunSnoc(duplicate: bool, st: State, evs: seq<Event>, ev: Event)
    requires Run(duplicate, st, evs).Some?
    ensures Run(duplicate, st, evs + [ev]) == Step(duplicate, Run(duplicate, st, evs).value, ev)
    decreases |evs|
  {
    if evs == [] {
      assert [ev][1..] == [];
    } else {
      RunSnoc(duplicate, Step(duplicate, st, evs[0]).value, evs[1..], ev);
      assert (evs + [ev])[1..] == evs[1..] + [ev];
    }
  }

  lemma RawHandleCopied() returns (st: State)
    ensures Reachable(false, st) && st.reader == Up
    ensures st.env == Shared(map[7 := Connection], map[1 := Context(0, Some(7), None, 0)], true, 0,
                             Some(Sample(0)), Some(7), false)
    ensures st.calls == [Call(MakingEvent, NotStarted, 1, 0, Some(7), None, 0)]
  {
    st := CallArrives(false);
    st := Extend(false, st, Caller(0, Fails));
    st := Extend(false, st, Caller(0, Fails));
    st := Extend(false, st, Caller(0, Gives(1)));
    st := Extend(false, st, Caller(0, Gives(0)));
  }

  /** A worker is inside FilterSendMessage with the raw number 7, which names the connection. */
  lemma RawWorkerStarts() returns (st: State)
    ensures Reachable(false, st) && st.reader == Up
    ensures st.env == Shared(map[7 := Connection, 8 := DoneEvent(0, false), 9 := Thread(0)],
                             map[1 := Context(0, Some(7), Some(8), 2)], true, 0, None, Some(7), false)
    ensures st.calls == [Call(DroppingThread, Sending, 1, 9, Some(7), Some(8), 0)]
  {
    st := RawHandleCopied();
    st := Extend(false, st, Caller(0, Gives(8)));
    st := Extend(false, st, Caller(0, Fails));
    st := Extend(false, st, Caller(0, Gives(9)));
  }

  /** The port thread has closed that connection and been handed number 7 again for the next one. */
  lemma NumberReused() returns (st: State)
    ensures Reachable(false, st) && st.reader == Up
    ensures st.env == Shared(map[7 := Connection, 8 := DoneEvent(0, false), 9 := Thread(0)],
                             map[1 := Context(0, Some(7), Some(8), 2)], true, 0, None, Some(7), false)
    ensures st.calls == [Call(DroppingThread, Sending, 1, 9, Some(7), Some(8), 0)]
  {
    st := RawWorkerStarts();
    st := Extend(false, st, PortThread(Fails));
    st := Extend(false, st, PortThread(Fails));
    st := Extend(false, st, PortThread(Fails));
    st := Extend(false, st, PortThread(Fails));
    st := Extend(false, st, PortThread(Fails));
    st := Extend(false, st, PortThread(Gives(7)));
  }

  /** The earlier form kept the raw g_Port value: a reconnect that is handed the old number back loses its
      fresh connection to the worker's CloseHandle, and g_Port names nothing. */
  lemma RawHandleClosesLiveConnection()
    ensures exists st :: Reachable(false, st) && st.reader == Up && st.env.gPort == Some(7) && 7 !in st.env.table
  {
    var st := NumberReused();
    st := Extend(false, st, Worker(0));
    st := Extend(false, st, Worker(0));
    st := Extend(false, st, Worker(0));
    st := Extend(false, st, Worker(0));
  }
}
