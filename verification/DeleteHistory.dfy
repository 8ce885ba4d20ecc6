/** What the events of a run determine: which files go, how requests end, what the counters say, and the order
    in which notifications leave the queue. */
module DeleteHistory {
  import opened Common
  import opened DriverQueue
  import opened DeleteMachine
  import opened DeleteInvariants
  import opened DeleteTheorems

  // ------------------------------------------------------------------ which files are destroyed

  /** The event renames `f`, or a directory around it, into staging. */
  predicate MovesFile(s: State, e: Event, f: FileId) {
    e.OfStaging? && e.staging.Rename? && e.staging.ok && e.call in s.calls &&
    (s.calls[e.call].file == f || f in e.staging.within)
  }

  /** The event leaves a delete of `f` to the file system: `f` is not guarded, or its path is not checked, or is
      checked after the file was moved, or the request fails open. */
  predicate LetsDeleteThrough(cfg: Config, s: State, e: Event, f: FileId, moved: bool) {
    match e
    case OfNew(_, r) => r.Opened? && r.file == f && (f !in cfg.guarded || !r.found || moved)
    case OfArrival(c, a) =>
      c in s.calls && s.calls[c].file == f && s.calls[c].kind.Disposition? &&
      ((a.Forward? && (f !in cfg.guarded || !a.found || moved)) || (a.LookupFails? && !cfg.failClosed))
    case OfStaging(c, a) =>
      c in s.calls && s.calls[c].file == f && s.calls[c].kind.Disposition? && !cfg.failClosed &&
      (a.SidFails? || a.FailDelete?)
    case _ => false
  }

  /** The state a run has reached; runs here are possible ones. */
  function At(cfg: Config, clock: int, es: seq<Event>): State
    requires Run(cfg, Init(clock), es).Some?
  {
    Run(cfg, Init(clock), es).value
  }

  lemma {:induction false} RunUnsnoc(cfg: Config, s: State, es: seq<Event>)
    requires es != [] && Run(cfg, s, es).Some?
    ensures var before := Run(cfg, s, es[..|es| - 1]);
            before.Some? && Step(cfg, before.value, es[|es| - 1]) == Run(cfg, s, es)
    decreases |es|
  {
    var m, last := Step(cfg, s, es[0]).value, |es| - 1;
    if last == 0 {
      assert es[..0] == [] && es[1..] == [];
    } else {
      RunUnsnoc(cfg, m, es[1..]);
      assert es[..last][0] == es[0] && es[..last][1..] == es[1..][..last - 1];
    }
  }

  ghost function MovedIn(cfg: Config, clock: int, es: seq<Event>, f: FileId): bool
    requires Run(cfg, Init(clock), es).Some?
    decreases |es|
  {
    es != [] &&
    (RunUnsnoc(cfg, Init(clock), es);
     var before := es[..|es| - 1];
     MovedIn(cfg, clock, before, f) || MovesFile(At(cfg, clock, before), es[|es| - 1], f))
  }

  /** Some event of the run lets a delete of `f` through; only earlier renames count as having moved it. */
  ghost function SlippedIn(cfg: Config, clock: int, es: seq<Event>, f: FileId): bool
    requires Run(cfg, Init(clock), es).Some?
    decreases |es|
  {
    es != [] &&
    (RunUnsnoc(cfg, Init(clock), es);
     var before := es[..|es| - 1];
     SlippedIn(cfg, clock, before, f) ||
     LetsDeleteThrough(cfg, At(cfg, clock, before), es[|es| - 1], f, MovedIn(cfg, clock, before, f)))
  }

  /** Where the file is follows from what has happened to it. */
  ghost predicate FollowsEvents(s: State, f: FileId, moved: bool, slipped: bool) {
    && (IsDestroyed(s, f) <==> slipped)
    && (!slipped ==> (f in s.env.files <==> moved))
  }

  predicate Gone(files: map<FileId, FileState>, f: FileId) {
    f in files && files[f].DestroyedBy?
  }

  /** What an event that moves `f`, or lets its delete through, does to its entry. */
  ghost predicate EntryMove(before: map<FileId, FileState>, after: map<FileId, FileState>, f: FileId, moves: bool,
                            lets: bool)
  {
    && (Gone(after, f) <==> Gone(before, f) || lets)
    && (!Gone(after, f) ==> (f in after <==> f in before || moves))
  }

  lemma NewMovesFile(cfg: Config, c: CallId, r: Request, v: Env, f: FileId, moved: bool)
    requires !Gone(v.files, f) ==> (f in v.files <==> moved)
    ensures EntryMove(v.files, NewStep(cfg, c, r, v).env.files, f, false,
                      r.Opened? && r.file == f && (f !in cfg.guarded || !r.found || moved))
            || Gone(v.files, f)
    ensures Gone(v.files, f) ==> Gone(NewStep(cfg, c, r, v).env.files, f)
  {
  }

  lemma ArrivalMovesFile(cfg: Config, c: CallId, k: Call, v: Env, a: ArrivalAct, r: CallStep, f: FileId, moved: bool)
    requires ArrivalStep(cfg, c, k, v, a) == Some(r) && Excused(cfg, k)
    requires !Gone(v.files, f) ==> (f in v.files <==> moved)
    ensures EntryMove(v.files, r.env.files, f, false,
                      k.file == f && k.kind.Disposition? &&
                      ((a.Forward? && (f !in cfg.guarded || !a.found || moved)) || (a.LookupFails? && !cfg.failClosed)))
            || Gone(v.files, f)
    ensures Gone(v.files, f) ==> Gone(r.env.files, f)
  {
  }

  lemma StagingMovesFile(cfg: Config, c: CallId, k: Call, v: Env, a: StagingAct, r: CallStep, f: FileId)
    requires StagingStep(cfg, c, k, v, a) == Some(r)
    ensures EntryMove(v.files, r.env.files, f, a.Rename? && a.ok && (k.file == f || f in a.within),
                      k.file == f && k.kind.Disposition? && !cfg.failClosed && (a.SidFails? || a.FailDelete?))
            || Gone(v.files, f)
    ensures Gone(v.files, f) ==> Gone(r.env.files, f)
  {
  }

  /** No other event touches a file's entry. */
  lemma OthersMoveNoFile(cfg: Config, s: State, e: Event, t: State)
    requires Step(cfg, s, e) == Some(t) && !e.OfNew? && !e.OfArrival? && !e.OfStaging?
    ensures t.env.files == s.env.files
  {
  }

  lemma EventMovesFile(cfg: Config, s: State, e: Event, t: State, f: FileId, moved: bool, slipped: bool)
    requires FollowsEvents(s, f, moved, slipped) && AllExcused(cfg, s.calls)
    requires Step(cfg, s, e) == Some(t)
    ensures FollowsEvents(t, f, moved || MovesFile(s, e, f), slipped || LetsDeleteThrough(cfg, s, e, f, moved))
  {
    match e
    case OfNew(c, r) => NewMovesFile(cfg, c, r, s.env, f, moved);
    case OfArrival(c, a) =>
      ArrivalMovesFile(cfg, c, s.calls[c], s.env, a, ArrivalStep(cfg, c, s.calls[c], s.env, a).value, f, moved);
    case OfStaging(c, a) =>
      StagingMovesFile(cfg, c, s.calls[c], s.env, a, StagingStep(cfg, c, s.calls[c], s.env, a).value, f);
    case _ => OthersMoveNoFile(cfg, s, e, t);
  }

  lemma {:induction false} RunFollowsEvents(cfg: Config, clock: int, es: seq<Event>, f: FileId)
    requires Run(cfg, Init(clock), es).Some?
    ensures FollowsEvents(At(cfg, clock, es), f, MovedIn(cfg, clock, es, f), SlippedIn(cfg, clock, es, f))
    decreases |es|
  {
    if es != [] {
      RunUnsnoc(cfg, Init(clock), es);
      var before := es[..|es| - 1];
      RunFollowsEvents(cfg, clock, before, f);
      var s := At(cfg, clock, before);
      InitHolds(cfg, clock);
      RunKeeps(cfg, Init(clock), before, s);
      EventMovesFile(cfg, s, es[|es| - 1], At(cfg, clock, es), f,
                     MovedIn(cfg, clock, before, f), SlippedIn(cfg, clock, before, f));
    }
  }

  /** In any run a file, or its staged copy, is destroyed exactly when some event left a delete of it to the file
      system: because the file is not guarded, or although it is, unchecked, after a rename had moved it, or
      failing open. */
  lemma DestroyedIffLetThrough(cfg: Config, clock: int, es: seq<Event>, f: FileId)
    requires Run(cfg, Init(clock), es).Some?
    ensures IsDestroyed(At(cfg, clock, es), f) <==> SlippedIn(cfg, clock, es, f)
  {
    RunFollowsEvents(cfg, clock, es, f);
  }

  /** For a file that is not guarded that is: when a delete of it was forwarded, or its lookup failed under
      fail-open. Nothing else is asked. */
  predicate Forwards(cfg: Config, s: State, e: Event, f: FileId) {
    match e
    case OfNew(_, r) => r.Opened? && r.file == f
    case OfArrival(c, a) =>
      c in s.calls && s.calls[c].file == f && s.calls[c].kind.Disposition? &&
      (a.Forward? || (a.LookupFails? && !cfg.failClosed))
    case _ => false
  }

  ghost function ForwardedIn(cfg: Config, clock: int, es: seq<Event>, f: FileId): bool
    requires Run(cfg, Init(clock), es).Some?
    decreases |es|
  {
    es != [] &&
    (RunUnsnoc(cfg, Init(clock), es);
     var before := es[..|es| - 1];
     ForwardedIn(cfg, clock, before, f) || Forwards(cfg, At(cfg, clock, before), es[|es| - 1], f))
  }

  lemma {:induction false} UnguardedGoesWhenForwarded(cfg: Config, clock: int, es: seq<Event>, f: FileId)
    requires Run(cfg, Init(clock), es).Some? && f !in cfg.guarded
    ensures IsDestroyed(At(cfg, clock, es), f) <==> ForwardedIn(cfg, clock, es, f)
    decreases |es|
  {
    if es != [] {
      RunUnsnoc(cfg, Init(clock), es);
      var before, e := es[..|es| - 1], es[|es| - 1];
      UnguardedGoesWhenForwarded(cfg, clock, before, f);
      var s := At(cfg, clock, before);
      RunFollowsEvents(cfg, clock, before, f);
      RunFollowsEvents(cfg, clock, es, f);
      GuardedInStaging(cfg, clock, before);
    }
  }

  // ------------------------------------------------------------------ who is intercepted

  /** A callback past the protection test, or with its delete-on-close flag stripped, is for a guarded file. */
  predicate ForGuarded(cfg: Config, k: Call) {
    k.pc == Entered || k.pc == Done(Denied) || k.pc == Done(PassThrough) || k.file in cfg.guarded
  }

  ghost predicate AllForGuarded(cfg: Config, calls: map<CallId, Call>) {
    forall c :: c in calls ==> ForGuarded(cfg, calls[c]) && (calls[c].kind.FlagStripped? ==> calls[c].file in cfg.guarded)
  }

  lemma CallStaysForGuarded(cfg: Config, c: CallId, k: Call, v: Env, e: Event, r: CallStep)
    requires KnownCallStep(cfg, c, k, v, e) == Some(r) && ForGuarded(cfg, k)
    requires k.kind.FlagStripped? ==> k.file in cfg.guarded
    ensures ForGuarded(cfg, r.call) && r.call.file == k.file && r.call.kind == k.kind
  {
  }

  lemma StepKeepsForGuarded(cfg: Config, s: State, e: Event, t: State)
    requires AllForGuarded(cfg, s.calls) && Step(cfg, s, e) == Some(t)
    ensures AllForGuarded(cfg, t.calls)
  {
    match e
    case OfNew(c, r) =>
    case OfSender(_) =>
    case OfPort(_) =>
    case OfUnload(_) =>
    case OfWorld(_) =>
    case OfSweep(_) =>
    case _ =>
      var c := e.call;
      CallStaysForGuarded(cfg, c, s.calls[c], s.env, e, KnownCallStep(cfg, c, s.calls[c], s.env, e).value);
  }

  /** No request for a file that is not guarded is ever intercepted. */
  lemma {:induction false} GuardedInStaging(cfg: Config, clock: int, es: seq<Event>)
    requires Run(cfg, Init(clock), es).Some?
    ensures AllForGuarded(cfg, At(cfg, clock, es).calls)
    decreases |es|
  {
    if es != [] {
      RunUnsnoc(cfg, Init(clock), es);
      var before := es[..|es| - 1];
      GuardedInStaging(cfg, clock, before);
      StepKeepsForGuarded(cfg, At(cfg, clock, before), es[|es| - 1], At(cfg, clock, es));
    }
  }

  // ------------------------------------------------------------------ how a request ends

  /** The event makes callback `c` deny its request: a failure, under fail-closed. */
  predicate Denies(cfg: Config, e: Event, c: CallId) {
    cfg.failClosed &&
    match e
    case OfArrival(d, a) => d == c && a.LookupFails?
    case OfStaging(d, a) => d == c && (a.SidFails? || a.FailDelete?)
    case _ => false
  }

  /** The event makes it leave its request to the file system. */
  predicate Passes(cfg: Config, e: Event, c: CallId) {
    match e
    case OfArrival(d, a) => d == c && (a.Forward? || a == OpenResult(false) || (a.LookupFails? && !cfg.failClosed))
    case OfStaging(d, a) => d == c && (a.SidFails? || a.FailDelete?) && !cfg.failClosed
    case _ => false
  }

  /** The event is the last of a callback that staged its file. */
  predicate Completes(e: Event, c: CallId) {
    e.OfNotify? && e.call == c && (e.notify.CountDropped? || e.notify.SetEvent?)
  }

  ghost predicate Occurs(es: seq<Event>, p: Event -> bool) {
    exists i :: 0 <= i < |es| && p(es[i])
  }

  lemma OccursSnoc(es: seq<Event>, p: Event -> bool)
    requires es != []
    ensures Occurs(es, p) <==> Occurs(es[..|es| - 1], p) || p(es[|es| - 1])
  {
    var before := es[..|es| - 1];
    assert forall i :: 0 <= i < |before| ==> before[i] == es[i];
    if Occurs(before, p) {
      var i :| 0 <= i < |before| && p(before[i]);
      assert p(es[i]);
    }
    if Occurs(es, p) && !p(es[|es| - 1]) {
      var i :| 0 <= i < |es| && p(es[i]);
      assert p(before[i]);
    }
  }

  function Denial(cfg: Config, c: CallId): Event -> bool {
    (e: Event) => Denies(cfg, e, c)
  }

  function Passing(cfg: Config, c: CallId): Event -> bool {
    (e: Event) => Passes(cfg, e, c)
  }

  function Completion(c: CallId): Event -> bool {
    (e: Event) => Completes(e, c)
  }

  predicate Ended(s: State, c: CallId, fate: Fate) {
    c in s.calls && s.calls[c].pc == Done(fate)
  }

  /** The request is an open that never lost its delete-on-close flag. */
  predicate KeptFlag(s: State, c: CallId) {
    c in s.calls && s.calls[c].kind.FlagKept?
  }

  ghost predicate FateFollows(cfg: Config, s: State, es: seq<Event>, c: CallId) {
    && (Ended(s, c, Denied) <==> Occurs(es, Denial(cfg, c)))
    && (Ended(s, c, Success) <==> Occurs(es, Completion(c)))
    && (Ended(s, c, PassThrough) <==> KeptFlag(s, c) || Occurs(es, Passing(cfg, c)))
  }

  lemma CallEndsBy(cfg: Config, c: CallId, k: Call, v: Env, e: Event, r: CallStep)
    requires KnownCallStep(cfg, c, k, v, e) == Some(r) && (e.OfArrival? || e.OfStaging? || e.OfNotify?) && e.call == c
    ensures !k.pc.Done? && r.call.kind == k.kind
    ensures r.call.pc == Done(Denied) <==> Denies(cfg, e, c)
    ensures r.call.pc == Done(PassThrough) <==> Passes(cfg, e, c)
    ensures r.call.pc == Done(Success) <==> Completes(e, c)
  {
  }

  /** An event of something else ends nothing for `c`. */
  lemma OthersEndNothing(cfg: Config, s: State, e: Event, t: State, c: CallId)
    requires Step(cfg, s, e) == Some(t)
    requires !((e.OfNew? || e.OfArrival? || e.OfStaging? || e.OfNotify?) && e.call == c)
    ensures (c in t.calls <==> c in s.calls) && (c in s.calls ==> t.calls[c] == s.calls[c])
    ensures !Denies(cfg, e, c) && !Passes(cfg, e, c) && !Completes(e, c)
  {
  }

  lemma FateStep(cfg: Config, s: State, es: seq<Event>, t: State, c: CallId)
    requires es != [] && Step(cfg, s, es[|es| - 1]) == Some(t) && FateFollows(cfg, s, es[..|es| - 1], c)
    ensures FateFollows(cfg, t, es, c)
  {
    var e := es[|es| - 1];
    OccursSnoc(es, Denial(cfg, c));
    OccursSnoc(es, Passing(cfg, c));
    OccursSnoc(es, Completion(c));
    if (e.OfArrival? || e.OfStaging? || e.OfNotify?) && e.call == c {
      CallEndsBy(cfg, c, s.calls[c], s.env, e, KnownCallStep(cfg, c, s.calls[c], s.env, e).value);
    } else if !(e.OfNew? && e.call == c) {
      OthersEndNothing(cfg, s, e, t, c);
    }
  }

  /** In any run a callback has denied its request exactly when an event of its own failed under fail-closed, has
      reported success exactly when it got through to its notification's end, and has left the request to the file
      system exactly when that was forwarded, or its own open failed, or something failed under fail-open. */
  lemma {:induction false} FateIs(cfg: Config, clock: int, es: seq<Event>, c: CallId)
    requires Run(cfg, Init(clock), es).Some?
    ensures FateFollows(cfg, At(cfg, clock, es), es, c)
    decreases |es|
  {
    if es != [] {
      RunUnsnoc(cfg, Init(clock), es);
      FateIs(cfg, clock, es[..|es| - 1], c);
      FateStep(cfg, At(cfg, clock, es[..|es| - 1]), es, At(cfg, clock, es), c);
    }
  }

  lemma {:induction false} NeverStaged(cfg: Config, clock: int, es: seq<Event>, c: CallId, i: nat)
    requires Run(cfg, Init(clock), es).Some? && i < |es|
    requires c in At(cfg, clock, es).calls && At(cfg, clock, es).calls[c].file !in cfg.guarded
    ensures !(es[i].OfStaging? && es[i].call == c)
    decreases |es|
  {
    RunUnsnoc(cfg, Init(clock), es);
    var before, e := es[..|es| - 1], es[|es| - 1];
    var s := At(cfg, clock, before);
    GuardedInStaging(cfg, clock, before);
    if (e.OfArrival? || e.OfStaging? || e.OfNotify?) && e.call == c {
      var r := KnownCallStep(cfg, c, s.calls[c], s.env, e).value;
      CallStaysForGuarded(cfg, c, s.calls[c], s.env, e, r);
      CallEndsBy(cfg, c, s.calls[c], s.env, e, r);
    }
    if i < |es| - 1 {
      if e.OfNew? && e.call == c {
        NotYetArrived(cfg, clock, before, c, i);
      } else {
        SameFile(cfg, s, e, At(cfg, clock, es), c);
        NeverStaged(cfg, clock, before, c, i);
      }
      assert before[i] == es[i];
    }
  }

  lemma SameFile(cfg: Config, s: State, e: Event, t: State, c: CallId)
    requires Step(cfg, s, e) == Some(t) && c in t.calls && !(e.OfNew? && e.call == c)
    ensures c in s.calls && t.calls[c].file == s.calls[c].file
  {
    if !((e.OfArrival? || e.OfStaging? || e.OfNotify?) && e.call == c) {
      OthersEndNothing(cfg, s, e, t, c);
    }
  }

  lemma {:induction false} NotYetArrived(cfg: Config, clock: int, es: seq<Event>, c: CallId, i: nat)
    requires Run(cfg, Init(clock), es).Some? && i < |es| && c !in At(cfg, clock, es).calls
    ensures !(es[i].OfStaging? && es[i].call == c)
    decreases |es|
  {
    RunUnsnoc(cfg, Init(clock), es);
    var before, e := es[..|es| - 1], es[|es| - 1];
    if i < |es| - 1 {
      if c in At(cfg, clock, before).calls {
        CallsStay(cfg, At(cfg, clock, before), e, At(cfg, clock, es), c);
      }
      NotYetArrived(cfg, clock, before, c, i);
      assert before[i] == es[i];
    }
  }

  lemma CallsStay(cfg: Config, s: State, e: Event, t: State, c: CallId)
    requires Step(cfg, s, e) == Some(t) && c in s.calls
    ensures c in t.calls
  {
  }

  function LookupFailure(c: CallId): Event -> bool {
    (e: Event) => e == OfArrival(c, LookupFails)
  }

  /** A request for a file that is not guarded is denied only if its path could not be looked up, under
      fail-closed. */
  lemma UnguardedIsDeniedIff(cfg: Config, clock: int, es: seq<Event>, c: CallId)
    requires Run(cfg, Init(clock), es).Some?
    requires c in At(cfg, clock, es).calls && At(cfg, clock, es).calls[c].file !in cfg.guarded
    ensures Ended(At(cfg, clock, es), c, Denied) <==> cfg.failClosed && Occurs(es, LookupFailure(c))
  {
    FateIs(cfg, clock, es, c);
    forall i | 0 <= i < |es| ensures Denial(cfg, c)(es[i]) <==> cfg.failClosed && LookupFailure(c)(es[i]) {
      NeverStaged(cfg, clock, es, c, i);
    }
  }

  // ------------------------------------------------------------------ what the counters count

  /** How often each of these has happened. */
  datatype Tally = Tally(intercepts: nat, moves: nat, refusedMoves: nat, full: nat, denials: nat)

  const NOTHING: Tally := Tally(0, 0, 0, 0, 0)

  function Plus(a: Tally, b: Tally): Tally {
    Tally(a.intercepts + b.intercepts, a.moves + b.moves, a.refusedMoves + b.refusedMoves, a.full + b.full,
          a.denials + b.denials)
  }

  /** All 512 slots are taken. */
  predicate NoSlotLeft(cfg: Config, g: Shared) {
    (if cfg.countQueued then g.depth + g.reserved else g.reserved) >= 512
  }

  function Happening(cfg: Config, g: Shared, e: Event): Tally {
    match e
    case OfArrival(_, Intercept) => NOTHING.(intercepts := 1)
    case OfArrival(_, LookupFails) => if cfg.failClosed then NOTHING.(denials := 1) else NOTHING
    case OfStaging(_, Rename(ok, _, _)) => if ok then NOTHING.(moves := 1) else NOTHING.(refusedMoves := 1)
    case OfStaging(_, TryReserve) => if NoSlotLeft(cfg, g) then NOTHING.(full := 1) else NOTHING
    case OfStaging(_, SidFails) => if cfg.failClosed then NOTHING.(denials := 1) else NOTHING
    case OfStaging(_, FailDelete) => if cfg.failClosed then NOTHING.(denials := 1) else NOTHING
    case _ => NOTHING
  }

  ghost function Happened(cfg: Config, clock: int, es: seq<Event>): Tally
    requires Run(cfg, Init(clock), es).Some?
    decreases |es|
  {
    if es == [] then NOTHING
    else
      RunUnsnoc(cfg, Init(clock), es);
      var before := es[..|es| - 1];
      Plus(Happened(cfg, clock, before), Happening(cfg, At(cfg, clock, before).env.g, es[|es| - 1]))
  }

  predicate JustMoved(pc: Pc) {
    pc == Renamed
  }

  predicate JustRefused(pc: Pc) {
    pc == RenameRefused
  }

  predicate JustFull(pc: Pc) {
    pc == NoSlot
  }

  predicate HasDenied(pc: Pc) {
    pc == Done(Denied)
  }

  /** A counter that is raised one step after the fact lags by the callbacks in between. */
  ghost predicate Accounts(st: Stats, calls: map<CallId, Call>, h: Tally) {
    && st.intercepts == h.intercepts
    && st.renameOk + Count(calls, JustMoved) == h.moves
    && st.renameFail + Count(calls, JustRefused) == h.refusedMoves
    && st.queueFull + Count(calls, JustFull) == h.full
    && st.deleteDenied == Count(calls, HasDenied) == h.denials
  }

  ghost predicate Change(k: Call, v: Env, r: CallStep, h: Tally) {
    var a, b := v.stats, r.env.stats;
    && b.intercepts == a.intercepts + h.intercepts
    && b.renameOk + Num(JustMoved(r.call.pc)) == a.renameOk + Num(JustMoved(k.pc)) + h.moves
    && b.renameFail + Num(JustRefused(r.call.pc)) == a.renameFail + Num(JustRefused(k.pc)) + h.refusedMoves
    && b.queueFull + Num(JustFull(r.call.pc)) == a.queueFull + Num(JustFull(k.pc)) + h.full
    && b.deleteDenied == a.deleteDenied + h.denials
    && Num(HasDenied(r.call.pc)) == Num(HasDenied(k.pc)) + h.denials
  }

  lemma NewChanges(cfg: Config, c: CallId, request: Request, v: Env)
    ensures var r := NewStep(cfg, c, request, v); Change(Blank(r), v, r, NOTHING)
  {
  }

  lemma ArrivalChanges(cfg: Config, c: CallId, k: Call, v: Env, a: ArrivalAct, r: CallStep)
    requires ArrivalStep(cfg, c, k, v, a) == Some(r)
    ensures Change(k, v, r, Happening(cfg, v.g, OfArrival(c, a)))
  {
  }

  lemma StagingChanges(cfg: Config, c: CallId, k: Call, v: Env, a: StagingAct, r: CallStep)
    requires StagingStep(cfg, c, k, v, a) == Some(r)
    ensures Change(k, v, r, Happening(cfg, v.g, OfStaging(c, a)))
  {
  }

  lemma NotifyChanges(c: CallId, k: Call, v: Env, a: NotifyAct, r: CallStep)
    requires NotifyStep(c, k, v, a) == Some(r)
    ensures Change(k, v, r, NOTHING)
  {
  }

  lemma CountChanges(v: Env, calls: map<CallId, Call>, c: CallId, k: Call, r: CallStep, h: Tally, d: Tally)
    requires Accounts(v.stats, calls, h) && Change(k, v, r, d)
    requires if c in calls then k == calls[c] else k.pc == Opening
    ensures Accounts(r.env.stats, calls[c := r.call], Plus(h, d))
  {
    var after := calls[c := r.call];
    CountUpdate(calls, c, after, JustMoved);
    CountUpdate(calls, c, after, JustRefused);
    CountUpdate(calls, c, after, JustFull);
    CountUpdate(calls, c, after, HasDenied);
  }

  lemma OthersCountNothing(cfg: Config, s: State, e: Event, t: State)
    requires Step(cfg, s, e) == Some(t) && !e.OfNew? && !e.OfArrival? && !e.OfStaging? && !e.OfNotify?
    ensures t.calls == s.calls && Happening(cfg, s.env.g, e) == NOTHING
    ensures var a, b := s.env.stats, t.env.stats;
            && b.intercepts == a.intercepts && b.renameOk == a.renameOk && b.renameFail == a.renameFail
            && b.queueFull == a.queueFull && b.deleteDenied == a.deleteDenied
  {
  }

  lemma AccountsStep(cfg: Config, s: State, e: Event, t: State, h: Tally)
    requires Accounts(s.env.stats, s.calls, h) && Step(cfg, s, e) == Some(t)
    ensures Accounts(t.env.stats, t.calls, Plus(h, Happening(cfg, s.env.g, e)))
  {
    match e
    case OfNew(c, request) =>
      NewChanges(cfg, c, request, s.env);
      var r := NewStep(cfg, c, request, s.env);
      CountChanges(s.env, s.calls, c, Blank(r), r, h, NOTHING);
    case OfArrival(c, a) =>
      var r := ArrivalStep(cfg, c, s.calls[c], s.env, a).value;
      ArrivalChanges(cfg, c, s.calls[c], s.env, a, r);
      CountChanges(s.env, s.calls, c, s.calls[c], r, h, Happening(cfg, s.env.g, e));
    case OfStaging(c, a) =>
      var r := StagingStep(cfg, c, s.calls[c], s.env, a).value;
      StagingChanges(cfg, c, s.calls[c], s.env, a, r);
      CountChanges(s.env, s.calls, c, s.calls[c], r, h, Happening(cfg, s.env.g, e));
    case OfNotify(c, a) =>
      var r := NotifyStep(c, s.calls[c], s.env, a).value;
      NotifyChanges(c, s.calls[c], s.env, a, r);
      CountChanges(s.env, s.calls, c, s.calls[c], r, h, NOTHING);
    case _ => OthersCountNothing(cfg, s, e, t);
  }

  /** In any run the counters are the number of intercepts, of files moved, of moves refused, of times no slot was
      left and of requests denied, but for what is about to be counted. */
  lemma {:induction false} CountersCount(cfg: Config, clock: int, es: seq<Event>)
    requires Run(cfg, Init(clock), es).Some?
    ensures Accounts(At(cfg, clock, es).env.stats, At(cfg, clock, es).calls, Happened(cfg, clock, es))
    decreases |es|
  {
    if es == [] {
      var calls := Init(clock).calls;
      assert Members(calls, JustMoved) == {} && Members(calls, JustRefused) == {};
      assert Members(calls, JustFull) == {} && Members(calls, HasDenied) == {};
    } else {
      RunUnsnoc(cfg, Init(clock), es);
      var before := es[..|es| - 1];
      CountersCount(cfg, clock, before);
      AccountsStep(cfg, At(cfg, clock, before), es[|es| - 1], At(cfg, clock, es), Happened(cfg, clock, before));
    }
  }

  /** So DeleteDenied is the number of requests that were denied. */
  lemma DenialsAreCounted(cfg: Config, s: State)
    requires Reachable(cfg, s)
    ensures s.env.stats.deleteDenied == Count(s.calls, HasDenied)
  {
    var clock, es :| Run(cfg, Init(clock), es) == Some(s);
    CountersCount(cfg, clock, es);
  }

  // ------------------------------------------------------------------ the order of the queue

  /** The nodes an event puts into the queue, ... */
  function Enters(s: State, e: Event, t: State): seq<Node> {
    if e.OfNotify? && e.notify.TryInsert? && e.call in t.calls && e.call in s.calls && s.calls[e.call].pc.Ready? &&
       t.calls[e.call].pc == Inserted
    then [Node(e.call, s.calls[e.call].pc.port)] else []
  }

  /** ... and those it takes out, for the send thread, at disconnect or at unload. */
  function Leaves(s: State, e: Event, t: State): seq<Node> {
    match e
    case OfSender(Take) => if t.sender.InSend? then [t.sender.node] else []
    case OfPort(Poll) => if t.conn.Draining? then t.conn.dead else []
    case OfUnload(FlushOne) => if s.env.g.queue != [] then [s.env.g.queue[0]] else []
    case _ => []
  }

  ghost function EnteredQueue(cfg: Config, clock: int, es: seq<Event>): seq<Node>
    requires Run(cfg, Init(clock), es).Some?
    decreases |es|
  {
    if es == [] then []
    else
      RunUnsnoc(cfg, Init(clock), es);
      var before := es[..|es| - 1];
      EnteredQueue(cfg, clock, before) + Enters(At(cfg, clock, before), es[|es| - 1], At(cfg, clock, es))
  }

  ghost function LeftQueue(cfg: Config, clock: int, es: seq<Event>): seq<Node>
    requires Run(cfg, Init(clock), es).Some?
    decreases |es|
  {
    if es == [] then []
    else
      RunUnsnoc(cfg, Init(clock), es);
      var before := es[..|es| - 1];
      LeftQueue(cfg, clock, before) + Leaves(At(cfg, clock, before), es[|es| - 1], At(cfg, clock, es))
  }

  lemma CallQueues(cfg: Config, c: CallId, k: Call, v: Env, e: Event, r: CallStep)
    requires KnownCallStep(cfg, c, k, v, e) == Some(r) && (e.OfArrival? || e.OfStaging? || e.OfNotify?) && e.call == c
    ensures r.env.g.queue == v.g.queue + (if e.OfNotify? && e.notify.TryInsert? && k.pc.Ready? && r.call.pc == Inserted
                                          then [Node(c, k.pc.port)] else [])
  {
  }

  lemma SenderQueue(sender: Sender, v: Env, a: SendAct, m: SendStep)
    requires SenderStep(sender, v, a) == Some(m)
    ensures v.g.queue == (if a.Take? && m.sender.InSend? then [m.sender.node] else []) + m.env.g.queue
  {
  }

  lemma PortQueue(conn: Conn, v: Env, a: PortAct, m: ConnStep)
    requires PortStep(conn, v, a) == Some(m)
    ensures v.g.queue == (if a.Poll? && m.conn.Draining? then m.conn.dead else []) + m.env.g.queue
  {
  }

  lemma UnloadQueue(unload: Unload, sender: Sender, v: Env, a: UnloadAct, m: UnloadStep)
    requires UnloadingStep(unload, sender, v, a) == Some(m)
    ensures v.g.queue == (if a.FlushOne? then [v.g.queue[0]] else []) + m.env.g.queue
  {
  }

  lemma OthersQueue(cfg: Config, s: State, e: Event, t: State)
    requires Step(cfg, s, e) == Some(t) && !e.OfArrival? && !e.OfStaging? && !e.OfNotify?
    ensures s.env.g.queue == Leaves(s, e, t) + t.env.g.queue && Enters(s, e, t) == []
  {
    match e
    case OfSender(a) => SenderQueue(s.sender, s.env, a, SenderStep(s.sender, s.env, a).value);
    case OfPort(a) => PortQueue(s.conn, s.env, a, PortStep(s.conn, s.env, a).value);
    case OfUnload(a) =>
      UnloadQueue(s.unload, s.sender, s.env, a, UnloadingStep(s.unload, s.sender, s.env, a).value);
    case _ =>
  }

  lemma QueueStep(cfg: Config, s: State, e: Event, t: State)
    requires Step(cfg, s, e) == Some(t)
    ensures s.env.g.queue + Enters(s, e, t) == Leaves(s, e, t) + t.env.g.queue
  {
    if e.OfArrival? || e.OfStaging? || e.OfNotify? {
      CallQueues(cfg, e.call, s.calls[e.call], s.env, e, KnownCallStep(cfg, e.call, s.calls[e.call], s.env, e).value);
      assert Leaves(s, e, t) == [];
    } else {
      OthersQueue(cfg, s, e, t);
    }
  }

  lemma Regroup(entered: seq<Node>, left: seq<Node>, was: seq<Node>, now: seq<Node>, enters: seq<Node>,
                leaves: seq<Node>)
    requires entered == left + was && was + enters == leaves + now
    ensures entered + enters == (left + leaves) + now
  {
    assert entered + enters == left + (was + enters);
  }

  /** The queue is first in, first out: what has entered it is what has left it, then what is in it, in order,
      whoever takes it out. */
  lemma {:induction false} FirstInFirstOut(cfg: Config, clock: int, es: seq<Event>)
    requires Run(cfg, Init(clock), es).Some?
    ensures EnteredQueue(cfg, clock, es) == LeftQueue(cfg, clock, es) + At(cfg, clock, es).env.g.queue
    decreases |es|
  {
    if es != [] {
      RunUnsnoc(cfg, Init(clock), es);
      var before, e := es[..|es| - 1], es[|es| - 1];
      FirstInFirstOut(cfg, clock, before);
      var s, t := At(cfg, clock, before), At(cfg, clock, es);
      QueueStep(cfg, s, e, t);
      Regroup(EnteredQueue(cfg, clock, before), LeftQueue(cfg, clock, before), s.env.g.queue, t.env.g.queue,
              Enters(s, e, t), Leaves(s, e, t));
    }
  }

  /** When unload's flush is done, everything that ever entered the queue has left it. */
  lemma FlushEmptiesTheQueue(cfg: Config, clock: int, es: seq<Event>)
    requires es != [] && Run(cfg, Init(clock), es).Some? && es[|es| - 1] == OfUnload(FlushDone)
    ensures EnteredQueue(cfg, clock, es) == LeftQueue(cfg, clock, es)
  {
    RunUnsnoc(cfg, Init(clock), es);
    FirstInFirstOut(cfg, clock, es);
  }

  /** The greatest length the queue has had. */
  ghost function Peak(cfg: Config, clock: int, es: seq<Event>): nat
    requires Run(cfg, Init(clock), es).Some?
    decreases |es|
  {
    if es == [] then 0
    else
      RunUnsnoc(cfg, Init(clock), es);
      var so, now := Peak(cfg, clock, es[..|es| - 1]), |At(cfg, clock, es).env.g.queue|;
      if now > so then now else so
  }

  lemma DepthMarked(cfg: Config, s: State, e: Event, t: State)
    requires Step(cfg, s, e) == Some(t) && s.env.g.depth == |s.env.g.queue| <= s.env.g.maxDepth
    ensures t.env.g.maxDepth == if |t.env.g.queue| > s.env.g.maxDepth then |t.env.g.queue| else s.env.g.maxDepth
  {
    if e.OfArrival? || e.OfStaging? || e.OfNotify? {
      var k := s.calls[e.call];
      DepthMarkedByCall(cfg, e.call, k, s.env, e, KnownCallStep(cfg, e.call, k, s.env, e).value);
    } else {
      DepthMarkedByOthers(cfg, s, e, t);
    }
  }

  lemma DepthMarkedByCall(cfg: Config, c: CallId, k: Call, v: Env, e: Event, r: CallStep)
    requires KnownCallStep(cfg, c, k, v, e) == Some(r) && v.g.depth == |v.g.queue| <= v.g.maxDepth
    ensures r.env.g.maxDepth == if |r.env.g.queue| > v.g.maxDepth then |r.env.g.queue| else v.g.maxDepth
  {
  }

  lemma DepthMarkedByOthers(cfg: Config, s: State, e: Event, t: State)
    requires Step(cfg, s, e) == Some(t) && !e.OfArrival? && !e.OfStaging? && !e.OfNotify?
    requires s.env.g.depth == |s.env.g.queue| <= s.env.g.maxDepth
    ensures t.env.g.maxDepth == s.env.g.maxDepth && |t.env.g.queue| <= |s.env.g.queue|
  {
  }

  /** MaxQueueDepth is the high-water mark of the run. */
  lemma {:induction false} HighWaterMark(cfg: Config, clock: int, es: seq<Event>)
    requires Run(cfg, Init(clock), es).Some?
    ensures At(cfg, clock, es).env.g.maxDepth == Peak(cfg, clock, es) >= |At(cfg, clock, es).env.g.queue|
    decreases |es|
  {
    if es != [] {
      RunUnsnoc(cfg, Init(clock), es);
      var before := es[..|es| - 1];
      HighWaterMark(cfg, clock, before);
      DepthIsLength(cfg, At(cfg, clock, before));
      DepthMarked(cfg, At(cfg, clock, before), es[|es| - 1], At(cfg, clock, es));
    }
  }

  // ------------------------------------------------------------------ everybody gets to their end

  /** How many steps a callback has left at most. */
  function StepsLeft(pc: Pc): nat {
    match pc
    case Opening => 14 case Entered => 13 case Intercepted => 12 case NoSlot => 3 case Holding => 11
    case RenameRefused => 4 case BackingOut => 3 case Failing => 2
    case Renamed => 10 case CountedRename => 9 case Noted => 8 case SawActive => 7 case Snapped(_) => 6
    case Ready(_) => 5 case Dropping => 3 case Uncounted => 2 case Inserted => 1 case Done(_) => 0
  }

  /** Every step of a callback brings it nearer to its end: it returns after at most fourteen of them. */
  lemma CallbacksAdvance(cfg: Config, s: State, e: Event, t: State, c: CallId)
    requires Step(cfg, s, e) == Some(t) && (e.OfArrival? || e.OfStaging? || e.OfNotify?) && e.call == c
    ensures c in s.calls && c in t.calls && StepsLeft(t.calls[c].pc) < StepsLeft(s.calls[c].pc)
  {
    CallAdvances(cfg, c, s.calls[c], s.env, e, KnownCallStep(cfg, c, s.calls[c], s.env, e).value);
  }

  lemma CallAdvances(cfg: Config, c: CallId, k: Call, v: Env, e: Event, r: CallStep)
    requires KnownCallStep(cfg, c, k, v, e) == Some(r)
    ensures StepsLeft(r.call.pc) < StepsLeft(k.pc)
  {
  }

  /** A step a callback can take from where it stands, whatever the others are doing. */
  function NextOf(c: CallId, pc: Pc): Event
    requires !pc.Done?
  {
    match pc
    case Opening => OfArrival(c, OpenResult(true))
    case Entered => OfArrival(c, LookupFails)
    case Intercepted => OfStaging(c, TryReserve)
    case NoSlot => OfStaging(c, CountFull)
    case Holding => OfStaging(c, SetupFails)
    case RenameRefused => OfStaging(c, CountRenameFail)
    case BackingOut => OfStaging(c, BackOut)
    case Failing => OfStaging(c, FailDelete)
    case Renamed => OfStaging(c, CountRenameOk)
    case CountedRename => OfNotify(c, AllocNote(true))
    case Noted => OfNotify(c, ReadActive)
    case SawActive => OfNotify(c, ReadPort)
    case Snapped(_) => OfNotify(c, AllocNode(true))
    case Ready(_) => OfNotify(c, TryInsert)
    case Dropping => OfNotify(c, ReleaseDropped)
    case Uncounted => OfNotify(c, CountDropped)
    case Inserted => OfNotify(c, SetEvent)
  }

  /** No callback ever waits for anybody. */
  lemma CallbacksNeverWait(cfg: Config, s: State, c: CallId)
    requires c in s.calls && !s.calls[c].pc.Done?
    ensures Step(cfg, s, NextOf(c, s.calls[c].pc)).Some?
  {
  }

  /** A step the send thread can take. */
  function NextSend(sender: Sender): SendAct {
    match sender
    case Outer => Loop
    case Waiting => Wake
    case Woken => Recheck
    case Inner => Take
    case InSend(_) => SendReturns(false, true)
    case Returned(_, _, _) => CountSend
    case Counted(_) => EndSend
    case Freeing(_) => FreeSent
    case Exited => Loop
  }

  /** The send thread waits only for its event. */
  lemma SenderWaitsForItsEvent(cfg: Config, s: State)
    ensures Step(cfg, s, OfSender(NextSend(s.sender))).Some? <==>
            !s.sender.Exited? && (s.sender.Waiting? ==> s.env.event)
  {
  }

  /** A step of the connection, for a connect when there is none. */
  function NextOfPort(conn: Conn, p: Port): PortAct {
    match conn
    case Closed => Connect(p)
    case Open(_) => HangUp
    case Closing(_) => Poll
    case Draining(_, dead) => if dead == [] then CloseDone else FreeDead
  }

  /** Connections come and go: the next step is always possible, and a poll gets the disconnect past its wait
      exactly when no send is under way. */
  lemma PortNeverStuck(cfg: Config, s: State, p: Port)
    ensures Step(cfg, s, OfPort(NextOfPort(s.conn, p))).Some?
    ensures s.conn.Closing? ==>
              (Step(cfg, s, OfPort(Poll)).value.conn.Draining? <==> !s.env.g.sending)
  {
  }

  /** Unload has begun exactly when the queue is no longer active; past the wake-up a waiting send thread has its
      event set, and past the join it is gone. */
  ghost predicate UnloadOk(v: Env, sender: Sender, unload: Unload) {
    && (v.active <==> unload == Loaded)
    && (unload != Loaded && unload != Stopping && sender.Waiting? ==> v.event)
    && (unload == Flushing || unload == Flushed ==> sender.Exited?)
    && (sender.Exited? ==> !v.active)
  }

  lemma UnloadKept(cfg: Config, s: State, e: Event, t: State)
    requires UnloadOk(s.env, s.sender, s.unload) && Step(cfg, s, e) == Some(t)
    ensures UnloadOk(t.env, t.sender, t.unload)
  {
    if e.OfArrival? || e.OfStaging? || e.OfNotify? {
      var k := s.calls[e.call];
      CallKeepsActive(cfg, e.call, k, s.env, e, KnownCallStep(cfg, e.call, k, s.env, e).value);
    }
  }

  lemma CallKeepsActive(cfg: Config, c: CallId, k: Call, v: Env, e: Event, r: CallStep)
    requires KnownCallStep(cfg, c, k, v, e) == Some(r)
    ensures r.env.active == v.active && (v.event ==> r.env.event)
  {
  }

  lemma {:induction false} UnloadHolds(cfg: Config, s: State, es: seq<Event>, t: State)
    requires UnloadOk(s.env, s.sender, s.unload) && Run(cfg, s, es) == Some(t)
    ensures UnloadOk(t.env, t.sender, t.unload)
    decreases |es|
  {
    if es != [] {
      UnloadKept(cfg, s, es[0], Step(cfg, s, es[0]).value);
      UnloadHolds(cfg, Step(cfg, s, es[0]).value, es[1..], t);
    }
  }

  /** Unload never waits for a send thread that sleeps for good, and flushes only when that thread is gone. */
  lemma UnloadEndsTheSender(cfg: Config, s: State)
    requires Reachable(cfg, s)
    ensures s.unload == Kicked && s.sender != Exited ==> Step(cfg, s, OfSender(NextSend(s.sender))).Some?
    ensures s.unload == Kicked && s.sender == Exited ==> Step(cfg, s, OfUnload(Joined)).Some?
    ensures s.unload == Flushing || s.unload == Flushed ==> s.sender == Exited
    ensures s.env.active <==> s.unload == Loaded
  {
    var clock, es :| Run(cfg, Init(clock), es) == Some(s);
    UnloadHolds(cfg, Init(clock), es, s);
    SenderWaitsForItsEvent(cfg, s);
  }

  // ------------------------------------------------------------------ what reaches the table

  ghost predicate TableOk(w: World) {
    w.received <= w.delivered && w.rows <= w.delivered && w.landed <= w.rows
  }

  lemma TableKept(cfg: Config, s: State, e: Event, t: State)
    requires TableOk(s.env.world) && Step(cfg, s, e) == Some(t)
    ensures TableOk(t.env.world)
  {
    match e
    case OfNew(c, r) =>
    case OfSender(a) => SenderKeepsTable(s.sender, s.env, a, SenderStep(s.sender, s.env, a).value);
    case OfPort(a) =>
    case OfUnload(a) =>
    case OfWorld(a) => WorldKeepsTable(cfg, s.env.world, a, t.env.world);
    case OfSweep(a) => SweepKeepsTable(cfg, s.env.world, a, t.env.world);
    case _ =>
      CallKeepsTable(cfg, e.call, s.calls[e.call], s.env, e, KnownCallStep(cfg, e.call, s.calls[e.call], s.env, e).value);
  }

  predicate SameTable(v: World, w: World) {
    w.received == v.received && w.delivered == v.delivered && w.rows == v.rows && w.landed == v.landed
  }

  lemma SenderKeepsTable(sender: Sender, v: Env, a: SendAct, m: SendStep)
    requires TableOk(v.world) && SenderStep(sender, v, a) == Some(m)
    ensures TableOk(m.env.world)
  {
  }

  lemma WorldKeepsTable(cfg: Config, v: World, a: WorldAct, w: World)
    requires TableOk(v) && WorldStep(cfg, v, a) == Some(w)
    ensures TableOk(w)
  {
  }

  lemma SweepKeepsTable(cfg: Config, v: World, a: SweepAct, w: World)
    requires SweepStep(cfg, v, a) == Some(w)
    ensures SameTable(v, w)
  {
  }

  lemma CallKeepsTable(cfg: Config, c: CallId, k: Call, v: Env, e: Event, r: CallStep)
    requires KnownCallStep(cfg, c, k, v, e) == Some(r)
    ensures SameTable(v.world, r.env.world)
  {
    match e
    case OfArrival(_, a) => ArrivalKeepsTable(cfg, c, k, v, a, r);
    case OfStaging(_, a) => StagingKeepsTable(cfg, c, k, v, a, r);
    case OfNotify(_, a) =>
    case _ =>
  }

  lemma ArrivalKeepsTable(cfg: Config, c: CallId, k: Call, v: Env, a: ArrivalAct, r: CallStep)
    requires ArrivalStep(cfg, c, k, v, a) == Some(r)
    ensures SameTable(v.world, r.env.world)
  {
  }

  lemma StagingKeepsTable(cfg: Config, c: CallId, k: Call, v: Env, a: StagingAct, r: CallStep)
    requires StagingStep(cfg, c, k, v, a) == Some(r)
    ensures SameTable(v.world, r.env.world)
  {
  }

  lemma {:induction false} TableHolds(cfg: Config, s: State, es: seq<Event>, t: State)
    requires TableOk(s.env.world) && Run(cfg, s, es) == Some(t)
    ensures TableOk(t.env.world)
    decreases |es|
  {
    if es != [] {
      TableKept(cfg, s, es[0], Step(cfg, s, es[0]).value);
      TableHolds(cfg, Step(cfg, s, es[0]).value, es[1..], t);
    }
  }

  /** Nothing gets a row that was not handed to the service, and nothing is landed without a row. */
  lemma RowsWereDelivered(cfg: Config, s: State)
    requires Reachable(cfg, s)
    ensures s.env.world.rows <= s.env.world.delivered && s.env.world.landed <= s.env.world.rows
  {
    var clock, es :| Run(cfg, Init(clock), es) == Some(s);
    TableHolds(cfg, Init(clock), es, s);
  }

  function Persisted(c: CallId): Event -> bool {
    (e: Event) => e == OfWorld(Persist(c, true))
  }

  function Unpersisted(c: CallId): Event -> bool {
    (e: Event) => e == OfWorld(Persist(c, false))
  }

  function Landing(c: CallId): Event -> bool {
    (e: Event) => e == OfWorld(Land(c))
  }

  /** A notification has a row exactly when it was persisted, its file is landed exactly when it was moved on, and
      one the service failed to persist is lost for good. */
  ghost predicate TableFollows(w: World, es: seq<Event>, c: CallId) {
    && (c in w.rows <==> Occurs(es, Persisted(c)))
    && (c in w.landed <==> Occurs(es, Landing(c)))
    && (Occurs(es, Unpersisted(c)) ==> c in w.orphaned)
  }

  lemma TableStep(cfg: Config, s: State, e: Event, t: State, c: CallId)
    requires Step(cfg, s, e) == Some(t)
    ensures c in t.env.world.rows <==> c in s.env.world.rows || Persisted(c)(e)
    ensures c in t.env.world.landed <==> c in s.env.world.landed || Landing(c)(e)
    ensures c in s.env.world.orphaned || Unpersisted(c)(e) ==> c in t.env.world.orphaned
  {
    match e
    case OfNew(d, r) =>
    case OfSender(a) =>
    case OfPort(a) =>
    case OfUnload(a) =>
    case OfWorld(a) => WorldTableStep(cfg, s.env.world, a, t.env.world, c);
    case OfSweep(a) => SweepTableStep(cfg, s.env.world, a, t.env.world);
    case _ =>
      var r := KnownCallStep(cfg, e.call, s.calls[e.call], s.env, e).value;
      CallKeepsTable(cfg, e.call, s.calls[e.call], s.env, e, r);
      CallLosesNothing(cfg, e.call, s.calls[e.call], s.env, e, r);
  }

  lemma WorldTableStep(cfg: Config, v: World, a: WorldAct, w: World, c: CallId)
    requires WorldStep(cfg, v, a) == Some(w)
    ensures c in w.rows <==> c in v.rows || a == Persist(c, true)
    ensures c in w.landed <==> c in v.landed || a == Land(c)
    ensures c in v.orphaned || a == Persist(c, false) ==> c in w.orphaned
  {
  }

  lemma SweepTableStep(cfg: Config, v: World, a: SweepAct, w: World)
    requires SweepStep(cfg, v, a) == Some(w)
    ensures w.rows == v.rows && w.landed == v.landed && w.orphaned == v.orphaned
  {
  }

  lemma CallLosesNothing(cfg: Config, c: CallId, k: Call, v: Env, e: Event, r: CallStep)
    requires KnownCallStep(cfg, c, k, v, e) == Some(r)
    ensures v.world.orphaned <= r.env.world.orphaned
  {
    match e
    case OfArrival(_, a) => ArrivalLosesNothing(cfg, c, k, v, a, r);
    case _ =>
  }

  lemma ArrivalLosesNothing(cfg: Config, c: CallId, k: Call, v: Env, a: ArrivalAct, r: CallStep)
    requires ArrivalStep(cfg, c, k, v, a) == Some(r)
    ensures r.env.world.orphaned == v.world.orphaned
  {
  }

  lemma {:induction false} TableFollowsEvents(cfg: Config, clock: int, es: seq<Event>, c: CallId)
    requires Run(cfg, Init(clock), es).Some?
    ensures TableFollows(At(cfg, clock, es).env.world, es, c)
    decreases |es|
  {
    if es != [] {
      RunUnsnoc(cfg, Init(clock), es);
      var before := es[..|es| - 1];
      TableFollowsEvents(cfg, clock, before, c);
      TableStep(cfg, At(cfg, clock, before), es[|es| - 1], At(cfg, clock, es), c);
      OccursSnoc(es, Persisted(c));
      OccursSnoc(es, Landing(c));
      OccursSnoc(es, Unpersisted(c));
    }
  }

  // ------------------------------------------------------------------ once unload has begun

  /** The callback has not read the queue as active, or has given its notification up since. */
  predicate OutOfQueue(pc: Pc) {
    !pc.SawActive? && !pc.Snapped? && !pc.Ready? && !pc.Inserted?
  }

  ghost predicate Late(s: State, c: CallId) {
    !s.env.active && (c in s.calls ==> OutOfQueue(s.calls[c].pc)) && forall n :: n in s.env.g.queue ==> n.owner != c
  }

  lemma CallStaysOut(cfg: Config, c: CallId, k: Call, v: Env, e: Event, r: CallStep)
    requires KnownCallStep(cfg, c, k, v, e) == Some(r) && !v.active && OutOfQueue(k.pc)
    ensures OutOfQueue(r.call.pc) && r.env.g.queue == v.g.queue && !r.env.active
  {
  }

  lemma OthersAddOnlyTheirs(cfg: Config, d: CallId, k: Call, v: Env, e: Event, r: CallStep)
    requires KnownCallStep(cfg, d, k, v, e) == Some(r) && (e.OfArrival? || e.OfStaging? || e.OfNotify?) && e.call == d
    ensures forall n :: n in r.env.g.queue ==> n in v.g.queue || n.owner == d
    ensures r.env.active == v.active
  {
    CallQueues(cfg, d, k, v, e, r);
    CallKeepsActive(cfg, d, k, v, e, r);
  }

  lemma LateStaysLate(cfg: Config, s: State, e: Event, t: State, c: CallId)
    requires Late(s, c) && Step(cfg, s, e) == Some(t)
    ensures Late(t, c)
  {
    if e.OfArrival? || e.OfStaging? || e.OfNotify? {
      var r := KnownCallStep(cfg, e.call, s.calls[e.call], s.env, e).value;
      if e.call == c {
        CallStaysOut(cfg, c, s.calls[c], s.env, e, r);
      } else {
        OthersAddOnlyTheirs(cfg, e.call, s.calls[e.call], s.env, e, r);
      }
    } else {
      OthersQueue(cfg, s, e, t);
      OthersStayInactive(cfg, s, e, t);
      forall n | n in t.env.g.queue ensures n.owner != c {
        assert n in s.env.g.queue;
      }
    }
  }

  lemma OthersStayInactive(cfg: Config, s: State, e: Event, t: State)
    requires !s.env.active && Step(cfg, s, e) == Some(t) && !e.OfArrival? && !e.OfStaging? && !e.OfNotify?
    ensures !t.env.active && forall c :: c in t.calls && c !in s.calls ==> OutOfQueue(t.calls[c].pc)
    ensures forall c :: c in s.calls ==> c in t.calls && t.calls[c] == s.calls[c]
  {
  }

  /** Once unload has begun, a callback that has not yet read the queue as active never gets a node into it. */
  lemma {:induction false} LateCallbacksQueueNothing(cfg: Config, s: State, es: seq<Event>, t: State, c: CallId)
    requires Late(s, c) && Run(cfg, s, es) == Some(t)
    ensures Late(t, c)
    decreases |es|
  {
    if es != [] {
      LateStaysLate(cfg, s, es[0], Step(cfg, s, es[0]).value, c);
      LateCallbacksQueueNothing(cfg, Step(cfg, s, es[0]).value, es[1..], t, c);
    }
  }

  /** A send thread between two rounds when unload begins sends nothing more. */
  predicate BetweenRounds(sender: Sender) {
    sender.Outer? || sender.Waiting? || sender.Woken? || sender.Exited?
  }

  lemma {:induction false} SenderStopsBetweenRounds(cfg: Config, s: State, es: seq<Event>, t: State)
    requires !s.env.active && BetweenRounds(s.sender) && Run(cfg, s, es) == Some(t)
    ensures !t.env.active && BetweenRounds(t.sender)
    decreases |es|
  {
    if es != [] {
      var e, m := es[0], Step(cfg, s, es[0]).value;
      if e.OfArrival? || e.OfStaging? || e.OfNotify? {
        var k := s.calls[e.call];
        CallKeepsActive(cfg, e.call, k, s.env, e, KnownCallStep(cfg, e.call, k, s.env, e).value);
      }
      assert !m.env.active && BetweenRounds(m.sender);
      SenderStopsBetweenRounds(cfg, m, es[1..], t);
    }
  }
}
