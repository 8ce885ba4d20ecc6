/**
 The delete path as a step machine: any number of delete callbacks, the send thread, the port
 connect and disconnect callbacks, driver unload, the service that persists what it receives, and
 the staging sweep, interleaved arbitrarily. One step is one lock-held section or one access to
 something shared; whatever a thread does on its own memory goes with the next such access.
 */
module DeleteMachine {
  import opened Common
  import opened DriverQueue
  import Paths

  type FileId = nat

  /** 100 ns ticks in a day. */
  const DAY: nat := 864000000000

  /** What does not change during a run, and the assumptions a run may be held to. */
  datatype Config = Config(
    failClosed: bool,         // the FailClosed policy
    countQueued: bool,        // repaired reservation guard
    guarded: set<FileId>,     // files with a protected, non-excluded path until they are staged
    paths: CallId -> string,  // the staging path RbfBuildStorePath makes for each callback
    vols: seq<Paths.Volume>,  // the service's volume map
    storeRoot: string,        // the service's StoreRoot, as it is typed
    below: CallId -> set<string>, // what the file system lists that path under, below StoreRoot
    graceDays: nat,           // OrphanGraceDays
    freshWrites: bool,        // assume: a staged file was not last written before it was staged
    flat: bool,               // assume: no staged directory has files in it
    patience: nat,            // assume: no notification stays in flight longer (ticks)
    slack: nat)               // assume: the sweep decides on one file within (ticks)

  /** How the delete reached the driver: a disposition mark, or an open whose delete-on-close flag
      RbfPreCreate kept or stripped. */
  datatype Kind = Disposition | FlagKept | FlagStripped

  /** PassThrough: the driver leaves the request to the file system. */
  datatype Fate = Success | Denied | PassThrough

  /** Where a delete callback stands, named after what it has just done. */
  datatype Pc =
    | Opening             // delete-on-close flag stripped, the open itself still running
    | Entered             // RbfStageDelete entered
    | Intercepted         // path protected, Intercepts counted
    | NoSlot              // reservation refused
    | Holding             // slot reserved, nothing moved yet
    | RenameRefused       // the rename failed
    | BackingOut          // failed before staging, slot still held
    | Failing             // about to run RbfFailDelete
    | Renamed             // file in staging
    | CountedRename       // RenameOk counted
    | Noted               // notification allocated, RbfQueueNotify entered
    | SawActive           // QueueActive read as true
    | Snapped(port: Port) // client port read
    | Ready(port: Port)   // queue node allocated
    | Dropping            // notification given up, slot still held
    | Uncounted           // slot released, NotifyDropped not yet counted
    | Inserted            // node queued, event not yet set
    | Done(fate: Fate)

  /** Why a request was left to the file system. `Unchecked`: the path could not be looked up or compared
      (lookup or pool failure). `AfterMove`: callback `mover` had moved the file out of the share. */
  datatype Why = Unasked | NotGuarded | AfterMove(mover: CallId) | Unchecked | FailedOpen | OpenFailed

  /** `within`: the files that the callback's rename moved inside a directory. */
  datatype Call = Call(file: FileId, kind: Kind, pc: Pc, why: Why, within: set<FileId>)

  /** What became of a file; one without an entry is where it was. */
  datatype FileState = StagedBy(call: CallId) | Within(call: CallId) | DestroyedBy(destroyer: CallId)

  datatype Sender =
    | Outer | Waiting | Woken | Inner
    | InSend(node: Node) | Returned(node: Node, delivered: bool, ok: bool) | Counted(node: Node) | Freeing(node: Node)
    | Exited

  /** The single client connection, as the filter manager sees it. */
  datatype Conn = Closed | Open(port: Port) | Closing(port: Port) | Draining(port: Port, dead: seq<Node>)

  datatype Unload = Loaded | Stopping | Kicked | Flushing | Flushed

  /** Pool blocks: the notification and the queue node of a callback. */
  datatype Block = NoteOf(call: CallId) | NodeOf(call: CallId)

  datatype Stats = Stats(
    intercepts: nat, renameOk: nat, renameFail: nat, notifySent: nat, notifyDropped: nat,
    queueFull: nat, deleteDenied: nat,
    ghostLookupDenials: nat,  // denials before Intercepts was counted
    ghostDrained: nat,        // nodes discarded by disconnect or unload, counted nowhere
    ghostTimedOut: nat)       // counted in NotifySent without having been delivered

  /** A staged file, or a staged directory with the files in it, each by the rest of its path. */
  datatype Content = Plain(lastWrite: int) | Tree(inner: map<string, int>)

  /** What sits in staging under the name made for one callback. */
  datatype Entry = Entry(since: int, content: Content)

  /** `part` is the rest of the path below the callback's own name, empty for that name itself. */
  datatype Sweeper =
    Idle | SawNoRow(target: CallId, part: string, lastWrite: int, at: int) | Doomed(target: CallId, part: string)

  datatype Memory = Memory(blocks: set<Block>, fault: bool)

  /** Outside the driver: the clock, the staging area, the service's database and its sweep. */
  datatype World = World(
    clock: int,
    staging: map<CallId, Entry>,
    received: set<CallId>,    // handed to the service, not yet persisted
    rows: set<CallId>,        // persisted
    orphaned: set<CallId>,    // dropped, drained, undelivered or failed to persist
    delivered: set<CallId>,   // ever handed to the service
    sweeper: Sweeper,
    landed: set<CallId>,      // moved on to the recycle bin
    reclaimed: set<CallId>,   // staged files deleted by the sweep
    gutted: set<CallId>,      // staged directories that lost a file to the sweep
    taken: map<CallId, CallId>) // staged copies a later request moved or destroyed, and which

  /** What the actors share. */
  datatype Env = Env(
    g: Shared, active: bool, event: bool, stats: Stats,
    files: map<FileId, FileState>, mem: Memory, world: World)

  datatype State = State(env: Env, calls: map<CallId, Call>, sender: Sender, conn: Conn, unload: Unload)

  function Init(clock: int): State {
    State(Env(INITIAL, true, false, Stats(0, 0, 0, 0, 0, 0, 0, 0, 0, 0), map[],
              Memory({}, false), World(clock, map[], {}, {}, {}, {}, Idle, {}, {}, {}, map[])),
          map[], Outer, Closed, Loaded)
  }

  // ------------------------------------------------------------------ steps

  /** A delete request: a disposition mark (RbfPreSetInfo), or a delete-on-close open (RbfPreCreate)
      whose path could be looked up and checked, or not. */
  datatype Request = Disposed(file: FileId) | Opened(file: FileId, found: bool)

  /** RbfPostCreate, and RbfStageDelete up to counting the intercept. */
  datatype ArrivalAct =
    | OpenResult(ok: bool)
    | LookupFails
    | Forward(found: bool)                      // not protected or excluded, or could not be checked
    | Intercept

  /** RbfStageDelete from the requestor's SID to the rename, and its failure exits. */
  datatype StagingAct =
    | SidFails | TryReserve | CountFull
    | SetupFails                                // store directory or store path
    | Rename(ok: bool, content: Content, within: set<FileId>)
    | CountRenameOk | CountRenameFail | BackOut | FailDelete

  /** RbfAllocNotify and RbfQueueNotify. */
  datatype NotifyAct =
    | AllocNote(ok: bool) | ReadActive | ReadPort | AllocNode(ok: bool) | TryInsert
    | ReleaseDropped | CountDropped | SetEvent

  datatype SendAct =
    Loop | Wake | Recheck | Take | SendReturns(delivered: bool, ok: bool) | CountSend | EndSend | FreeSent

  datatype PortAct = Connect(port: Port) | HangUp | Poll | FreeDead | CloseDone

  datatype UnloadAct = Stop | Kick | Joined | FlushOne | FlushDone

  datatype WorldAct =
    | Persist(call: CallId, ok: bool)   // DbAddItem
    | Land(call: CallId)                // the staged file moves to the recycle bin
    | Tick(ticks: nat)

  datatype SweepAct =
    | Query(call: CallId, via: string, part: string) // file enumerated, DbStorePathExists
    | Age                               // DaysSince
    | Delete                            // DeleteFileW

  datatype Event =
    | OfNew(call: CallId, request: Request)
    | OfArrival(call: CallId, arrival: ArrivalAct)
    | OfStaging(call: CallId, staging: StagingAct)
    | OfNotify(call: CallId, notify: NotifyAct)
    | OfSender(send: SendAct)
    | OfPort(portAct: PortAct)
    | OfUnload(unloadAct: UnloadAct)
    | OfWorld(worldAct: WorldAct)
    | OfSweep(sweepAct: SweepAct)

  /** Freeing a block that is not allocated raises `fault`. */
  function Free(m: Memory, b: Block): Memory {
    Memory(m.blocks - {b}, m.fault || b !in m.blocks)
  }

  function FreeBoth(m: Memory, c: CallId): Memory {
    Free(Free(m, NoteOf(c)), NodeOf(c))
  }

  function Owners(q: seq<Node>): set<CallId> {
    set n | n in q :: n.owner
  }

  function Orphan(w: World, cs: set<CallId>): World {
    w.(orphaned := w.orphaned + cs)
  }

  // ------------------------------------------------------------------ where a file is

  /** RbfIsProtected, and not excluded, at the file's present name: a file that has been staged, or moved
      inside a staged directory, is outside every protected prefix. */
  predicate Protected(cfg: Config, files: map<FileId, FileState>, f: FileId) {
    f in cfg.guarded && (f !in files || files[f].DestroyedBy?)
  }

  /** Why a request that passed the protection test, or skipped it, is forwarded. */
  function Reason(cfg: Config, files: map<FileId, FileState>, f: FileId, found: bool): Why {
    if !found then Unchecked
    else if f in cfg.guarded && f in files && !files[f].DestroyedBy? then AfterMove(files[f].call)
    else NotGuarded
  }

  /** The staged copy of `f`, if there is one, goes because of request `c`. */
  function Leave(w: World, files: map<FileId, FileState>, f: FileId, c: CallId): World {
    if f in files && files[f].StagedBy? && files[f].call in w.staging then
      w.(staging := w.staging - {files[f].call}, taken := w.taken[files[f].call := c])
    else w
  }

  /** The file system carries out a delete the driver let through, wherever the file is. */
  function Destroy(v: Env, f: FileId, c: CallId): Env {
    if f in v.files && v.files[f].DestroyedBy? then v
    else v.(files := v.files[f := DestroyedBy(c)], world := Leave(v.world, v.files, f, c))
  }

  /** The rename of `f` by `c`; files inside a directory come along. */
  function Moved(files: map<FileId, FileState>, f: FileId, c: CallId, within: set<FileId>): map<FileId, FileState> {
    (map x | x in within && x !in files :: Within(c)) + files + map[f := StagedBy(c)]
  }

  /** The object exists and its staging path fits the driver's buffer. */
  predicate Movable(cfg: Config, v: Env, f: FileId, c: CallId) {
    && (f in v.files ==> !v.files[f].DestroyedBy? && (v.files[f].StagedBy? ==> v.files[f].call !in v.world.reclaimed))
    && |cfg.paths(c)| <= MAX_PATH
  }

  /** The rest of a path inside a staged directory. */
  predicate ProperPart(part: string) {
    |part| >= 2 && part[0] == '\\'
  }

  predicate ContentAllowed(cfg: Config, now: int, content: Content) {
    match content
    case Plain(lastWrite) => cfg.freshWrites ==> lastWrite >= now
    case Tree(inner) => (cfg.flat ==> inner == map[]) && forall part :: part in inner ==> ProperPart(part)
  }

  datatype CallStep = CallStep(call: Call, env: Env)

  /** RbfFailDelete: deny, or with fail-open let the request through. A delete-on-close request had
      its flag stripped beforehand, so letting it through destroys nothing. */
  function Fail(cfg: Config, c: CallId, k: Call, v: Env): CallStep {
    if cfg.failClosed then
      CallStep(k.(pc := Done(Denied)), v.(stats := v.stats.(deleteDenied := v.stats.deleteDenied + 1)))
    else
      CallStep(k.(pc := Done(PassThrough), why := FailedOpen),
               if k.kind.Disposition? then Destroy(v, k.file, c) else v)
  }

  /** A new delete request. An open whose path is looked up and protected loses its delete-on-close flag;
      any other delete-on-close open is left to the file system. */
  function NewStep(cfg: Config, c: CallId, r: Request, v: Env): CallStep {
    match r
    case Disposed(f) => CallStep(Call(f, Disposition, Entered, Unasked, {}), v)
    case Opened(f, found) =>
      if found && Protected(cfg, v.files, f) then CallStep(Call(f, FlagStripped, Opening, Unasked, {}), v)
      else CallStep(Call(f, FlagKept, Done(PassThrough), Reason(cfg, v.files, f, found), {}), Destroy(v, f, c))
  }

  function ArrivalStep(cfg: Config, c: CallId, k: Call, v: Env, a: ArrivalAct): Option<CallStep> {
    match a
    case OpenResult(ok) =>
      if k.pc != Opening then None
      else if ok then Some(CallStep(k.(pc := Entered), v))
      else Some(CallStep(k.(pc := Done(PassThrough), why := OpenFailed), v))
    case LookupFails =>
      if k.pc != Entered then None
      else
        var r := Fail(cfg, c, k, v);
        var st := r.env.stats;
        Some(if cfg.failClosed
             then CallStep(r.call, r.env.(stats := st.(ghostLookupDenials := st.ghostLookupDenials + 1))) else r)
    case Forward(found) =>
      if k.pc != Entered || (found && Protected(cfg, v.files, k.file)) then None
      else Some(CallStep(k.(pc := Done(PassThrough), why := Reason(cfg, v.files, k.file, found)),
                         if k.kind.Disposition? then Destroy(v, k.file, c) else v))
    case Intercept =>
      if k.pc != Entered || !Protected(cfg, v.files, k.file) then None
      else Some(CallStep(k.(pc := Intercepted), v.(stats := v.stats.(intercepts := v.stats.intercepts + 1))))
  }

  function StagingStep(cfg: Config, c: CallId, k: Call, v: Env, a: StagingAct): Option<CallStep> {
    var st := v.stats;
    match a
    case SidFails => if k.pc != Intercepted then None else Some(Fail(cfg, c, k, v))
    case TryReserve =>
      if k.pc != Intercepted then None
      else
        var (g, ok) := Reserve(v.g, cfg.countQueued);
        Some(CallStep(k.(pc := if ok then Holding else NoSlot), v.(g := g)))
    case CountFull =>
      if k.pc != NoSlot then None
      else Some(CallStep(k.(pc := Failing), v.(stats := st.(queueFull := st.queueFull + 1))))
    case SetupFails => if k.pc != Holding then None else Some(CallStep(k.(pc := BackingOut), v))
    case Rename(ok, content, within) =>
      if k.pc != Holding then None
      else if !ok then Some(CallStep(k.(pc := RenameRefused), v))
      else if !Movable(cfg, v, k.file, c) || !ContentAllowed(cfg, v.world.clock, content) ||
              (within != {} && content.Plain?) then None
      else
        var w := Leave(v.world, v.files, k.file, c);
        Some(CallStep(k.(pc := Renamed, within := within),
                      v.(files := Moved(v.files, k.file, c, within),
                         world := w.(staging := w.staging[c := Entry(w.clock, content)]))))
    case CountRenameOk =>
      if k.pc != Renamed then None
      else Some(CallStep(k.(pc := CountedRename), v.(stats := st.(renameOk := st.renameOk + 1))))
    case CountRenameFail =>
      if k.pc != RenameRefused then None
      else Some(CallStep(k.(pc := BackingOut), v.(stats := st.(renameFail := st.renameFail + 1))))
    case BackOut =>
      if k.pc != BackingOut then None else Some(CallStep(k.(pc := Failing), v.(g := Release(v.g))))
    case FailDelete => if k.pc != Failing then None else Some(Fail(cfg, c, k, v))
  }

  function NotifyStep(c: CallId, k: Call, v: Env, a: NotifyAct): Option<CallStep> {
    match a
    case AllocNote(ok) =>
      if k.pc != CountedRename then None
      else if !ok then Some(CallStep(k.(pc := Dropping), v))
      else Some(CallStep(k.(pc := Noted), v.(mem := v.mem.(blocks := v.mem.blocks + {NoteOf(c)}))))
    case ReadActive =>
      if k.pc != Noted then None
      else if v.active then Some(CallStep(k.(pc := SawActive), v))
      else Some(CallStep(k.(pc := Dropping), v.(mem := Free(v.mem, NoteOf(c)))))
    case ReadPort =>
      if k.pc != SawActive then None
      else if v.g.clientPort.Some? then Some(CallStep(k.(pc := Snapped(v.g.clientPort.value)), v))
      else Some(CallStep(k.(pc := Dropping), v.(mem := Free(v.mem, NoteOf(c)))))
    case AllocNode(ok) =>
      if !k.pc.Snapped? then None
      else if !ok then Some(CallStep(k.(pc := Dropping), v.(mem := Free(v.mem, NoteOf(c)))))
      else Some(CallStep(k.(pc := Ready(k.pc.port)), v.(mem := v.mem.(blocks := v.mem.blocks + {NodeOf(c)}))))
    case TryInsert =>
      if !k.pc.Ready? then None
      else
        var (g, ok) := Insert(v.g, Node(c, k.pc.port));
        if ok then Some(CallStep(k.(pc := Inserted), v.(g := g)))
        else Some(CallStep(k.(pc := Dropping), v.(mem := FreeBoth(v.mem, c))))
    case ReleaseDropped =>
      if k.pc != Dropping then None else Some(CallStep(k.(pc := Uncounted), v.(g := Release(v.g))))
    case CountDropped =>
      if k.pc != Uncounted then None
      else Some(CallStep(k.(pc := Done(Success)),
                         v.(stats := v.stats.(notifyDropped := v.stats.notifyDropped + 1),
                            world := Orphan(v.world, {c}))))
    case SetEvent => if k.pc != Inserted then None else Some(CallStep(k.(pc := Done(Success)), v.(event := true)))
  }

  datatype SendStep = SendStep(sender: Sender, env: Env)

  function SenderStep(sender: Sender, v: Env, a: SendAct): Option<SendStep> {
    var st := v.stats;
    match a
    case Loop => if sender != Outer then None else Some(SendStep(if v.active then Waiting else Exited, v))
    case Wake => if sender != Waiting || !v.event then None else Some(SendStep(Woken, v.(event := false)))
    case Recheck => if sender != Woken then None else Some(SendStep(if v.active then Inner else Exited, v))
    case Take =>
      if sender != Inner then None
      else
        var (g, n) := TakeForSend(v.g);
        Some(SendStep(if n.Some? then InSend(n.value) else Outer, v.(g := g)))
    // A timeout is a success code although nothing was delivered.
    case SendReturns(delivered, ok) =>
      if !sender.InSend? || (delivered && !ok) then None
      else
        var c := sender.node.owner;
        Some(SendStep(Returned(sender.node, delivered, ok),
                      v.(world := if delivered then v.world.(received := v.world.received + {c},
                                                             delivered := v.world.delivered + {c})
                                  else Orphan(v.world, {c}))))
    case CountSend =>
      if !sender.Returned? then None
      else Some(SendStep(Counted(sender.node),
                         v.(stats := if !sender.ok then st.(notifyDropped := st.notifyDropped + 1)
                                     else if sender.delivered then st.(notifySent := st.notifySent + 1)
                                     else st.(notifySent := st.notifySent + 1, ghostTimedOut := st.ghostTimedOut + 1))))
    case EndSend =>
      if !sender.Counted? then None else Some(SendStep(Freeing(sender.node), v.(g := v.g.(sending := false))))
    case FreeSent =>
      if !sender.Freeing? then None else Some(SendStep(Inner, v.(mem := FreeBoth(v.mem, sender.node.owner))))
  }

  datatype ConnStep = ConnStep(conn: Conn, env: Env)

  function PortStep(conn: Conn, v: Env, a: PortAct): Option<ConnStep> {
    match a
    case Connect(p) =>
      if conn != Closed then None else Some(ConnStep(Open(p), v.(g := v.g.(clientPort := Some(p)))))
    case HangUp => if !conn.Open? then None else Some(ConnStep(Closing(conn.port), v))
    case Poll =>
      if !conn.Closing? then None
      else
        var (g, drained) := PollDisconnect(v.g);
        if drained.None? then Some(ConnStep(conn, v))
        else
          Some(ConnStep(Draining(conn.port, drained.value),
                        v.(g := g, world := Orphan(v.world, Owners(drained.value)),
                           stats := v.stats.(ghostDrained := v.stats.ghostDrained + |drained.value|))))
    case FreeDead =>
      if !conn.Draining? || conn.dead == [] then None
      else Some(ConnStep(Draining(conn.port, conn.dead[1..]), v.(mem := FreeBoth(v.mem, conn.dead[0].owner))))
    case CloseDone => if !conn.Draining? || conn.dead != [] then None else Some(ConnStep(Closed, v))
  }

  datatype UnloadStep = UnloadStep(unload: Unload, env: Env)

  function UnloadingStep(unload: Unload, sender: Sender, v: Env, a: UnloadAct): Option<UnloadStep> {
    match a
    case Stop => if unload != Loaded then None else Some(UnloadStep(Stopping, v.(active := false)))
    case Kick => if unload != Stopping then None else Some(UnloadStep(Kicked, v.(event := true)))
    case Joined => if unload != Kicked || sender != Exited then None else Some(UnloadStep(Flushing, v))
    case FlushOne =>
      var (g, n) := TakeForFlush(v.g);
      if unload != Flushing || n.None? then None
      else
        Some(UnloadStep(Flushing,
                        v.(g := g, mem := FreeBoth(v.mem, n.value.owner), world := Orphan(v.world, {n.value.owner}),
                           stats := v.stats.(ghostDrained := v.stats.ghostDrained + 1))))
    case FlushDone => if unload != Flushing || v.g.queue != [] then None else Some(UnloadStep(Flushed, v))
  }

  /** The notification of a staged file is on its way: neither persisted nor known to be lost. */
  predicate InFlight(w: World, c: CallId) {
    c in w.staging && c !in w.rows && c !in w.orphaned
  }

  /** Whole days since the last write, never negative (DaysSince). */
  function AgeInDays(now: int, lastWrite: int): nat {
    if now <= lastWrite then 0 else (now - lastWrite) / DAY
  }

  // ------------------------------------------------------------------ what the sweep sees

  /** The text WalkDir builds for a file it finds under `via`, starting from StoreRoot as it is typed. The
      file system decides what is found: it takes other cases, slashes and links for the same directory. */
  function Child(cfg: Config, via: string, part: string): string {
    cfg.storeRoot + via + part
  }

  predicate IsDbFile(name: string) {
    Fold(name) in {"RECYCLE.DB", "RECYCLE.DB-WAL", "RECYCLE.DB-SHM", "RECYCLE.DB-JOURNAL"}
  }

  /** The text in NT form; without one the file is left alone. */
  function LookedUp(cfg: Config, via: string, part: string): Option<string> {
    Paths.DosToNt(cfg.vols, Child(cfg, via, part))
  }

  /** WalkDir gets to the file by this name, and examines it. */
  predicate Reaches(cfg: Config, c: CallId, via: string, part: string) {
    via in cfg.below(c) && |Child(cfg, via, part)| < MAX_RECON_PATH && !IsDbFile(BaseName(Child(cfg, via, part))) &&
    LookedUp(cfg, via, part).Some?
  }

  /** The path a row holds: a notification carries one unit less than RBF_MAX_PATH. */
  function Recorded(cfg: Config, c: CallId): string {
    var p := cfg.paths(c);
    if |p| < MAX_PATH then p else p[..MAX_PATH - 1]
  }

  /** DbStorePathExists compares exactly. */
  predicate Known(cfg: Config, rows: set<CallId>, via: string, part: string) {
    exists d :: d in rows && LookedUp(cfg, via, part) == Some(Recorded(cfg, d))
  }

  function LastWriteOf(content: Content, part: string): Option<int> {
    match content
    case Plain(lastWrite) => if part == "" then Some(lastWrite) else None
    case Tree(inner) => if part != "" && part in inner then Some(inner[part]) else None
  }

  /** DeleteFileW on what the sweep has condemned, if it is still there. */
  function Reclaim(w: World, c: CallId, part: string): World {
    if c !in w.staging || LastWriteOf(w.staging[c].content, part).None? then w
    else if part == "" then w.(staging := w.staging - {c}, reclaimed := w.reclaimed + {c})
    else
      var e := w.staging[c];
      w.(staging := w.staging[c := e.(content := Tree(e.content.inner - {part}))], gutted := w.gutted + {c})
  }

  function WorldStep(cfg: Config, w: World, a: WorldAct): Option<World> {
    match a
    case Persist(c, ok) =>
      if c !in w.received then None
      else
        var w' := w.(received := w.received - {c});
        Some(if ok then w'.(rows := w.rows + {c}) else Orphan(w', {c}))
    case Land(c) =>
      if c !in w.rows || c !in w.staging then None
      else Some(w.(staging := w.staging - {c}, landed := w.landed + {c}))
    case Tick(d) =>
      var now := w.clock + d;
      if (forall c :: c in w.staging && InFlight(w, c) ==> now - w.staging[c].since <= cfg.patience) &&
         (w.sweeper.SawNoRow? ==> now - w.sweeper.at <= cfg.slack)
      then Some(w.(clock := now)) else None
  }

  function SweepStep(cfg: Config, w: World, a: SweepAct): Option<World> {
    match a
    case Query(c, via, part) =>
      if !w.sweeper.Idle? || c !in w.staging || !Reaches(cfg, c, via, part) then None
      else
        var written := LastWriteOf(w.staging[c].content, part);
        if written.None? then None
        else if Known(cfg, w.rows, via, part) then Some(w)
        else Some(w.(sweeper := SawNoRow(c, part, written.value, w.clock)))
    case Age =>
      if !w.sweeper.SawNoRow? then None
      else Some(w.(sweeper := if AgeInDays(w.clock, w.sweeper.lastWrite) < cfg.graceDays
                              then Idle else Doomed(w.sweeper.target, w.sweeper.part)))
    case Delete =>
      if !w.sweeper.Doomed? then None
      else Some(Reclaim(w, w.sweeper.target, w.sweeper.part).(sweeper := Idle))
  }

  function KnownCallStep(cfg: Config, c: CallId, k: Call, v: Env, e: Event): Option<CallStep> {
    match e
    case OfArrival(_, a) => ArrivalStep(cfg, c, k, v, a)
    case OfStaging(_, a) => StagingStep(cfg, c, k, v, a)
    case OfNotify(_, a) => NotifyStep(c, k, v, a)
    case _ => None
  }

  function Step(cfg: Config, s: State, e: Event): Option<State> {
    match e
    case OfNew(c, r) =>
      if c in s.calls then None
      else
        var m := NewStep(cfg, c, r, s.env);
        Some(s.(env := m.env, calls := s.calls[c := m.call]))
    case OfSender(a) =>
      var m := SenderStep(s.sender, s.env, a);
      if m.None? then None else Some(s.(env := m.value.env, sender := m.value.sender))
    case OfPort(a) =>
      var m := PortStep(s.conn, s.env, a);
      if m.None? then None else Some(s.(env := m.value.env, conn := m.value.conn))
    case OfUnload(a) =>
      var m := UnloadingStep(s.unload, s.sender, s.env, a);
      if m.None? then None else Some(s.(env := m.value.env, unload := m.value.unload))
    case OfWorld(a) =>
      var w := WorldStep(cfg, s.env.world, a);
      if w.None? then None else Some(s.(env := s.env.(world := w.value)))
    case OfSweep(a) =>
      var w := SweepStep(cfg, s.env.world, a);
      if w.None? then None else Some(s.(env := s.env.(world := w.value)))
    case _ =>
      if e.call !in s.calls then None
      else
        var m := KnownCallStep(cfg, e.call, s.calls[e.call], s.env, e);
        if m.None? then None
        else Some(s.(env := m.value.env, calls := s.calls[e.call := m.value.call]))
  }

  /** The state a sequence of steps leads to, if every one of them is enabled. */
  function Run(cfg: Config, s: State, es: seq<Event>): Option<State>
    decreases |es|
  {
    if es == [] then Some(s)
    else
      var m := Step(cfg, s, es[0]);
      if m.None? then None else Run(cfg, m.value, es[1..])
  }

  ghost predicate Reachable(cfg: Config, s: State) {
    exists clock, es :: Run(cfg, Init(clock), es) == Some(s)
  }
}
