/** What the delete machine guarantees in every reachable state, and the runs that show where it stops. */
module DeleteTheorems {
  import opened Common
  import opened DriverQueue
  import opened DeleteMachine
  import opened DeleteInvariants
  import Paths

  // ------------------------------------------------------------------ port lifetime and ownership

  /** Every queued node is for the current client port, and FltSendMessage runs only on a port whose
      disconnect callback has not returned. */
  lemma PortLifetime(cfg: Config, s: State)
    requires Reachable(cfg, s)
    ensures forall n :: n in s.env.g.queue ==> s.env.g.clientPort == Some(n.port)
    ensures s.env.g.clientPort == None ==> s.env.g.queue == []
    ensures s.sender.InSend? ==> (s.conn.Open? || s.conn.Closing?) && s.conn.port == s.sender.node.port
  {
    ReachableHolds(cfg, s);
    if s.env.g.queue != [] {
      assert s.env.g.queue[0] in s.env.g.queue;
    }
  }

  /** No block is ever freed twice; a block is allocated exactly while a callback, the send thread, the
      queue or the disconnect callback owns it; and each queued node has a single owner. */
  lemma BlocksOwned(cfg: Config, s: State)
    requires Reachable(cfg, s)
    ensures !s.env.mem.fault
    ensures forall b :: b in s.env.mem.blocks <==> Owned(s.calls, Flying(s.sender, s.env.g.queue, s.conn), b)
    ensures Distinct(Flying(s.sender, s.env.g.queue, s.conn))
  {
    ReachableHolds(cfg, s);
  }

  /** Once every callback has returned, the send thread holds no node and the connection is gone,
      nothing is leaked, whether or not unload flushed first. */
  lemma NothingLeaks(cfg: Config, s: State)
    requires Reachable(cfg, s)
    requires forall c :: c in s.calls ==> s.calls[c].pc.Done?
    requires s.conn.Closed? && (s.sender.Exited? || s.sender.Waiting?)
    ensures s.env.mem.blocks == {}
  {
    DriverHolds(cfg, s);
    assert s.env.g.queue == [] by {
      PortLifetime(cfg, s);
    }
    assert Flying(s.sender, s.env.g.queue, s.conn) == [];
    forall b ensures b !in s.env.mem.blocks {
      assert !Owned(s.calls, [], b);
    }
  }

  /** A send thread asleep, or about to sleep, on a non-empty queue is always about to be woken. */
  lemma NoLostWakeup(cfg: Config, s: State)
    requires Reachable(cfg, s)
    requires (s.sender.Outer? || s.sender.Waiting?) && s.env.g.queue != []
    ensures s.env.event || exists c :: c in s.calls && s.calls[c].pc.Inserted?
  {
    ReachableHolds(cfg, s);
  }

  // ------------------------------------------------------------------ reservations and counters

  /** Reserved counts exactly the callbacks holding a slot, so the Reserved > 0 guards never hide an
      underflow. */
  lemma ReservationDiscipline(cfg: Config, s: State)
    requires Reachable(cfg, s)
    ensures s.env.g.reserved == Count(s.calls, HoldsSlot) <= 512
    ensures forall c :: c in s.calls && HoldsSlot(s.calls[c].pc) ==> s.env.g.reserved > 0
    ensures s.env.g.depth == |s.env.g.queue|
  {
    ReachableHolds(cfg, s);
    forall c | c in s.calls && HoldsSlot(s.calls[c].pc) ensures s.env.g.reserved > 0 {
      assert c in Members(s.calls, HoldsSlot);
    }
  }

  /** Every rename counted is accounted for; so is every intercept; and NotifySent is what the service was
      given plus the sends that timed out, which count as successes. */
  lemma Conservation(cfg: Config, s: State)
    requires Reachable(cfg, s)
    ensures var st := s.env.stats;
            st.renameOk == st.notifySent + st.notifyDropped + |s.env.g.queue|
                           + Num(s.sender.InSend? || s.sender.Returned?)
                           + Count(s.calls, Pending) + st.ghostDrained
    ensures var st := s.env.stats;
            cfg.failClosed ==>
              st.intercepts + st.ghostLookupDenials == st.renameOk + st.deleteDenied + Count(s.calls, Running)
    ensures s.env.stats.notifySent + Num(s.sender.Returned? && s.sender.delivered) ==
            |s.env.world.delivered| + s.env.stats.ghostTimedOut
  {
    ReachableHolds(cfg, s);
  }

  /** So NotifySent runs ahead of what the service was given by the number of timeouts, which can be any. */
  lemma {:induction false} TimeoutsCountAsSent(cfg: Config, n: nat) returns (s: State)
    requires forall f :: 0 <= f < n ==> f in cfg.guarded && |cfg.paths(f)| <= MAX_PATH
    ensures Reachable(cfg, s) && s.env.stats.notifySent == n && s.env.world.delivered == {}
    ensures s.sender == Outer && s.env.active && s.env.g == s.env.g.(clientPort := Some(7), queue := [], reserved := 0)
    ensures s.env.world.clock == 0
    ensures (forall c :: c in s.calls ==> c < n) && (forall f :: f in s.env.files ==> f < n)
  {
    if n == 0 {
      s := Start(cfg, 0);
    } else {
      var m := TimeoutsCountAsSent(cfg, n - 1);
      DepthIsLength(cfg, m);
      m := StageOne(cfg, m, n - 1, n - 1, 7, Plain(0));
      s := SendTimesOut(cfg, m);
    }
  }

  lemma DepthIsLength(cfg: Config, s: State)
    requires Reachable(cfg, s)
    ensures s.env.g.depth == |s.env.g.queue|
  {
    ReachableHolds(cfg, s);
  }

  lemma SendTimesOut(cfg: Config, s: State) returns (t: State)
    requires Reachable(cfg, s) && s.sender == Outer && s.env.active && s.env.event && |s.env.g.queue| == 1
    ensures Reachable(cfg, t) && t.sender == Outer && t.calls == s.calls && t.env.files == s.env.files
    ensures t.env.active && t.env.g == s.env.g.(queue := [], depth := t.env.g.depth, sending := t.env.g.sending)
    ensures t.env.stats.notifySent == s.env.stats.notifySent + 1
    ensures t.env.world == Orphan(s.env.world, {s.env.g.queue[0].owner})
  {
    t := SendOne(cfg, s, false);
    t := FinishSend(cfg, t);
    t := ExtendSender(cfg, t, Take);
  }

  lemma FinishSend(cfg: Config, s: State) returns (t: State)
    requires Reachable(cfg, s) && s.sender.Returned? && s.sender.ok && !s.sender.delivered
    ensures Reachable(cfg, t) && t.sender == Inner && t == s.(env := t.env, sender := Inner)
    ensures t.env == s.env.(g := s.env.g.(sending := false), mem := t.env.mem, stats := t.env.stats)
    ensures t.env.stats.notifySent == s.env.stats.notifySent + 1
  {
    t := ExtendSender(cfg, s, CountSend);
    t := ExtendSender(cfg, t, EndSend);
    t := ExtendSender(cfg, t, FreeSent);
  }

  // ------------------------------------------------------------------ data safety

  /** A finished request reports success exactly when it staged its file. Under fail-closed a request for a
      guarded file is otherwise denied, unless its path could not be checked, or an earlier rename had
      already moved the file out of the share, or its own open failed. */
  lemma DataSafety(cfg: Config, s: State, c: CallId)
    requires Reachable(cfg, s) && c in s.calls && s.calls[c].pc.Done?
    ensures s.calls[c].pc.fate == Success <==> Whereabouts(s.env.world, c) == 1
    ensures var k := s.calls[c];
            k.pc.fate == PassThrough && cfg.failClosed && k.file in cfg.guarded ==>
              k.why == Unchecked || k.why.AfterMove? || (k.why == OpenFailed && !LetThrough(k))
    ensures var k := s.calls[c];
            k.why.AfterMove? ==> k.why.mover in s.calls && k.why.mover != c && MovedBy(k, s.calls[k.why.mover])
  {
    ReachableHolds(cfg, s);
    PassesAreExcused(cfg, s.calls, s.env.files, c);
    SuccessMeansStaged(s.env.world, s.env.files, s.calls, c);
  }

  lemma PassesAreExcused(cfg: Config, calls: map<CallId, Call>, files: map<FileId, FileState>, c: CallId)
    requires AllExcused(cfg, calls) && FileInv(files, calls) && c in calls && calls[c].pc.Done?
    ensures var k := calls[c];
            k.pc.fate == PassThrough && cfg.failClosed && k.file in cfg.guarded ==>
              k.why == Unchecked || k.why.AfterMove? || (k.why == OpenFailed && !LetThrough(k))
    ensures var k := calls[c];
            k.why.AfterMove? ==> k.why.mover in calls && k.why.mover != c && MovedBy(k, calls[k.why.mover])
  {
    assert Excused(cfg, calls[c]);
  }

  lemma SuccessMeansStaged(w: World, files: map<FileId, FileState>, calls: map<CallId, Call>, c: CallId)
    requires PlaceInv(w, files, calls) && c in calls && calls[c].pc.Done?
    ensures calls[c].pc.fate == Success <==> Whereabouts(w, c) == 1
  {
    assert Whereabouts(w, c) == Num(PastRename(Phase(calls, c)));
  }

  /** A delete reached a guarded file, or its staged copy, although it should not have: the request was not
      checked, was checked only after a rename had moved the file, or failed open. */
  predicate Slipped(k: Call) {
    LetThrough(k) && (k.why == Unchecked || k.why.AfterMove? || k.why == FailedOpen)
  }

  predicate IsDestroyed(s: State, f: FileId) {
    f in s.env.files && s.env.files[f].DestroyedBy?
  }

  /** Exactly when a guarded file, or what staging made of it, is destroyed by a delete: some request for it
      slipped through, never by failing open under fail-closed. */
  lemma GuardedFilesSurvive(cfg: Config, s: State, f: FileId)
    requires Reachable(cfg, s) && f in cfg.guarded
    ensures IsDestroyed(s, f) <==> exists c :: c in s.calls && s.calls[c].file == f && Slipped(s.calls[c])
    ensures cfg.failClosed ==> forall c :: c in s.calls && s.calls[c].pc.Done? ==> s.calls[c].why != FailedOpen
  {
    ReachableHolds(cfg, s);
    assert forall c :: c in s.calls ==> Excused(cfg, s.calls[c]) && DoneOk(s.calls[c], s.env.files);
    if IsDestroyed(s, f) {
      assert EntryOk(f, s.env.files[f], s.calls);
      assert Slipped(s.calls[s.env.files[f].destroyer]);
    }
  }

  /** The gap is real: a delete-on-close open whose path cannot be looked up keeps its flag. */
  lemma LookupFailureDestroys(cfg: Config, f: FileId) returns (s: State)
    ensures Reachable(cfg, s) && s.env.files == map[f := DestroyedBy(0)]
    ensures s.env.stats == Init(0).env.stats
  {
    s := Start(cfg, 0);
    s := Extend(cfg, s, OfNew(0, Opened(f, false)));
  }

  /** A second request for a staged file finds it outside every protected prefix: it is forwarded, and the
      staged copy of a guarded file is destroyed under fail-closed, with its notification under way. */
  lemma SecondRequestDestroys(cfg: Config, f: FileId) returns (s: State)
    requires f in cfg.guarded && |cfg.paths(0)| <= MAX_PATH
    ensures Reachable(cfg, s) && s.calls.Keys == {0, 1}
    ensures s.calls[0].file == f && s.calls[0].pc == Done(Success)
    ensures s.calls[1].file == f && s.calls[1].pc == Done(PassThrough) && s.calls[1].why == AfterMove(0)
    ensures IsDestroyed(s, f) && s.env.world.staging == map[] && s.env.g.queue == [Node(0, 7)]
  {
    s := OneStaged(cfg, f, 0, Plain(0));
    s := RequestAgain(cfg, s, f, 0);
  }

  /** One delete on a clock that starts at zero, its notification queued. */
  lemma OneStaged(cfg: Config, f: FileId, c: CallId, content: Content) returns (s: State)
    requires f in cfg.guarded && |cfg.paths(c)| <= MAX_PATH && ContentAllowed(cfg, 0, content)
    ensures Reachable(cfg, s) && s.calls == map[c := Call(f, Disposition, Done(Success), Unasked, {})]
    ensures s.env.files == map[f := StagedBy(c)] && s.env.g.queue == [Node(c, 7)]
    ensures s.sender == Outer && s.env.active && s.env.event
    ensures s.env.world == Init(0).env.world.(staging := map[c := Entry(0, content)])
  {
    s := Start(cfg, 0);
    s := StageOne(cfg, s, c, f, 7, content);
  }

  lemma RequestAgain(cfg: Config, s: State, f: FileId, c: CallId) returns (t: State)
    requires Reachable(cfg, s) && f in cfg.guarded && f in s.env.files && s.env.files[f] == StagedBy(c)
    requires 1 !in s.calls && s.env.world.staging.Keys == {c}
    ensures Reachable(cfg, t)
    ensures t.calls == s.calls[1 := Call(f, Disposition, Done(PassThrough), AfterMove(c), {})]
    ensures IsDestroyed(t, f) && t.env.world.staging == map[] && t.env.g == s.env.g
  {
    var r := ArriveFor(cfg, s, 1, f);
    r := ExtendCall(cfg, s, 1, r, OfArrival(1, Forward(true)));
    t := With(s, 1, r);
  }

  /** The notification of every staged file is in exactly one place. */
  lemma EveryStagedFileCovered(cfg: Config, s: State, c: CallId)
    requires Reachable(cfg, s) && c in s.env.world.staging
    ensures Places(s.env.world, s.calls, s.env.g.queue, s.sender, c) == 1
    ensures c in s.calls && s.calls[c].file in s.env.files && s.env.files[s.calls[c].file] == StagedBy(c)
  {
    ReachableHolds(cfg, s);
    assert Whereabouts(s.env.world, c) == Num(PastRename(Phase(s.calls, c)));
  }

  /** And every rename's copy is in staging, has landed, was reclaimed by the sweep, or was taken by another
      request for the same file that renamed it again or was let through; it is in exactly one of these. */
  lemma EveryCopyAccountedFor(cfg: Config, s: State, c: CallId)
    requires Reachable(cfg, s) && c in s.calls && PastRename(s.calls[c].pc)
    ensures Whereabouts(s.env.world, c) == 1
    ensures c in s.env.world.taken ==> TakenOk(c, s.env.world.taken[c], s.calls)
  {
    ReachableHolds(cfg, s);
    assert Phase(s.calls, c) == s.calls[c].pc;
  }

  /** Two callbacks that both passed the protection test: the second rename takes the file to its own name,
      and the first one's notification goes out for a file that is not there. */
  lemma RacingRenameStrandsARow(cfg: Config, f: FileId) returns (s: State)
    requires f in cfg.guarded && |cfg.paths(0)| <= MAX_PATH && |cfg.paths(1)| <= MAX_PATH
    ensures Reachable(cfg, s) && s.env.files == map[f := StagedBy(1)]
    ensures s.env.world.staging.Keys == {1} && s.env.world.taken == map[0 := 1]
    ensures s.env.g.queue == [Node(0, 7), Node(1, 7)]
  {
    var m := OneStagedOneHolding(cfg, f);
    var r := RenameAgain(cfg, m, f);
    r := NotifyFor(cfg, m, 1, r, 7);
    s := With(m, 1, r);
  }

  lemma RenameAgain(cfg: Config, s: State, f: FileId) returns (r: CallStep)
    requires Reachable(cfg, s) && 1 in s.calls && s.calls[1] == Call(f, Disposition, Holding, Unasked, {})
    requires s.env.files == map[f := StagedBy(0)] && |cfg.paths(1)| <= MAX_PATH
    requires s.env.world == Init(0).env.world.(staging := map[0 := Entry(0, Plain(0))])
    ensures Reachable(cfg, With(s, 1, r)) && r.call.pc == CountedRename
    ensures r.env.files == map[f := StagedBy(1)] && r.env.g == s.env.g && r.env.active == s.env.active
    ensures r.env.world.staging.Keys == {1} && r.env.world.taken == map[0 := 1]
  {
    r := CallStep(s.calls[1], s.env);
    assert With(s, 1, r) == s;
    r := RenameFor(cfg, s, 1, r, f, Plain(0));
  }

  lemma OneStagedOneHolding(cfg: Config, f: FileId) returns (s: State)
    requires f in cfg.guarded && |cfg.paths(0)| <= MAX_PATH
    ensures Reachable(cfg, s) && 1 in s.calls && s.calls[1] == Call(f, Disposition, Holding, Unasked, {})
    ensures s.env.files == map[f := StagedBy(0)] && s.env.g.queue == [Node(0, 7)] && s.env.g.clientPort == Some(7)
    ensures s.env.active
    ensures s.env.world == Init(0).env.world.(staging := map[0 := Entry(0, Plain(0))])
  {
    s := Start(cfg, 0);
    var r := ReserveFor(cfg, s, 1, f);
    s := StageOne(cfg, With(s, 1, r), 0, f, 7, Plain(0));
  }

  // ------------------------------------------------------------------ building runs

  lemma {:induction false} RunSnoc(cfg: Config, s: State, es: seq<Event>, m: State, e: Event)
    requires Run(cfg, s, es) == Some(m)
    ensures Run(cfg, s, es + [e]) == Step(cfg, m, e)
    decreases |es|
  {
    if es == [] {
      assert [e][1..] == [];
      assert Run(cfg, s, [e]) == if Step(cfg, s, e).None? then None else Run(cfg, Step(cfg, s, e).value, []);
    } else {
      RunSnoc(cfg, Step(cfg, s, es[0]).value, es[1..], m, e);
      assert (es + [e])[1..] == es[1..] + [e];
    }
  }

  lemma Extend(cfg: Config, s: State, e: Event) returns (t: State)
    requires Reachable(cfg, s) && Step(cfg, s, e).Some?
    ensures Reachable(cfg, t) && Step(cfg, s, e) == Some(t)
  {
    var clock, es :| Run(cfg, Init(clock), es) == Some(s);
    RunSnoc(cfg, Init(clock), es, s, e);
    t := Step(cfg, s, e).value;
  }

  lemma ExtendSender(cfg: Config, s: State, a: SendAct) returns (t: State)
    requires Reachable(cfg, s) && SenderStep(s.sender, s.env, a).Some?
    ensures Reachable(cfg, t)
    ensures var m := SenderStep(s.sender, s.env, a).value; t == s.(env := m.env, sender := m.sender)
  {
    t := Extend(cfg, s, OfSender(a));
  }

  lemma ExtendWorld(cfg: Config, s: State, a: WorldAct) returns (t: State)
    requires Reachable(cfg, s) && WorldStep(cfg, s.env.world, a).Some?
    ensures Reachable(cfg, t) && t == s.(env := s.env.(world := WorldStep(cfg, s.env.world, a).value))
  {
    t := Extend(cfg, s, OfWorld(a));
  }

  lemma Start(cfg: Config, clock: int) returns (t: State)
    ensures Reachable(cfg, t) && t == Init(clock).(conn := Open(7), env := t.env)
    ensures t.env == Init(clock).env.(g := INITIAL.(clientPort := Some(7)))
  {
    assert Run(cfg, Init(clock), []) == Some(Init(clock));
    t := Extend(cfg, Init(clock), OfPort(Connect(7)));
  }

  /** The state `s` would be in had callback `c` alone moved on to `r`. */
  function With(s: State, c: CallId, r: CallStep): State {
    s.(env := r.env, calls := s.calls[c := r.call])
  }

  lemma ExtendCall(cfg: Config, s: State, c: CallId, r: CallStep, e: Event) returns (r': CallStep)
    requires Reachable(cfg, With(s, c, r))
    requires (e.OfArrival? || e.OfStaging? || e.OfNotify?) && e.call == c
    requires KnownCallStep(cfg, c, r.call, r.env, e).Some?
    ensures Reachable(cfg, With(s, c, r')) && KnownCallStep(cfg, c, r.call, r.env, e) == Some(r')
  {
    r' := KnownCallStep(cfg, c, r.call, r.env, e).value;
    var t := Extend(cfg, With(s, c, r), e);
    assert t.calls == s.calls[c := r'.call];
    assert t == With(s, c, r');
  }

  lemma ArriveFor(cfg: Config, s: State, c: CallId, f: FileId) returns (r: CallStep)
    requires Reachable(cfg, s) && c !in s.calls
    ensures Reachable(cfg, With(s, c, r)) && r == CallStep(Call(f, Disposition, Entered, Unasked, {}), s.env)
  {
    var t := Extend(cfg, s, OfNew(c, Disposed(f)));
    r := NewStep(cfg, c, Disposed(f), s.env);
    assert t == With(s, c, r);
  }

  lemma ReserveFor(cfg: Config, s: State, c: CallId, f: FileId) returns (r: CallStep)
    requires Reachable(cfg, s) && c !in s.calls && Protected(cfg, s.env.files, f)
    requires Reserve(s.env.g, cfg.countQueued).1
    ensures Reachable(cfg, With(s, c, r)) && r.call == Call(f, Disposition, Holding, Unasked, {})
    ensures r.env == s.env.(g := Reserve(s.env.g, cfg.countQueued).0,
                            stats := s.env.stats.(intercepts := s.env.stats.intercepts + 1))
  {
    r := ArriveFor(cfg, s, c, f);
    r := ExtendCall(cfg, s, c, r, OfArrival(c, Intercept));
    r := ExtendCall(cfg, s, c, r, OfStaging(c, TryReserve));
  }

  lemma MoveFor(cfg: Config, s: State, c: CallId, r: CallStep, f: FileId, content: Content) returns (q: CallStep)
    requires Reachable(cfg, With(s, c, r)) && r.call == Call(f, Disposition, Holding, Unasked, {})
    requires Movable(cfg, r.env, f, c) && ContentAllowed(cfg, r.env.world.clock, content)
    ensures Reachable(cfg, With(s, c, q)) && q.call == Call(f, Disposition, Renamed, Unasked, {})
    ensures var w := Leave(r.env.world, r.env.files, f, c);
            q.env == r.env.(files := r.env.files[f := StagedBy(c)],
                            world := w.(staging := w.staging[c := Entry(w.clock, content)]))
  {
    q := ExtendCall(cfg, s, c, r, OfStaging(c, Rename(true, content, {})));
    assert Moved(r.env.files, f, c, {}) == r.env.files[f := StagedBy(c)];
  }

  lemma RenameFor(cfg: Config, s: State, c: CallId, r: CallStep, f: FileId, content: Content) returns (q: CallStep)
    requires Reachable(cfg, With(s, c, r)) && r.call == Call(f, Disposition, Holding, Unasked, {})
    requires Movable(cfg, r.env, f, c) && ContentAllowed(cfg, r.env.world.clock, content)
    ensures Reachable(cfg, With(s, c, q)) && q.call == Call(f, Disposition, CountedRename, Unasked, {})
    ensures var w := Leave(r.env.world, r.env.files, f, c);
            q.env == r.env.(
                stats := r.env.stats.(renameOk := r.env.stats.renameOk + 1), files := r.env.files[f := StagedBy(c)],
                world := w.(staging := w.staging[c := Entry(w.clock, content)]))
  {
    q := MoveFor(cfg, s, c, r, f, content);
    q := ExtendCall(cfg, s, c, q, OfStaging(c, CountRenameOk));
  }

  lemma NoteFor(cfg: Config, s: State, c: CallId, r: CallStep, p: Port) returns (q: CallStep)
    requires Reachable(cfg, With(s, c, r)) && r.call.pc == CountedRename
    requires r.env.active && r.env.g.clientPort == Some(p)
    ensures Reachable(cfg, With(s, c, q)) && q.call == r.call.(pc := Snapped(p))
    ensures q.env == r.env.(mem := q.env.mem)
  {
    q := ExtendCall(cfg, s, c, r, OfNotify(c, AllocNote(true)));
    q := ExtendCall(cfg, s, c, q, OfNotify(c, ReadActive));
    q := ExtendCall(cfg, s, c, q, OfNotify(c, ReadPort));
  }

  lemma QueueFor(cfg: Config, s: State, c: CallId, r: CallStep, p: Port) returns (q: CallStep)
    requires Reachable(cfg, With(s, c, r)) && r.call.pc == Snapped(p) && r.env.g.clientPort == Some(p)
    ensures Reachable(cfg, With(s, c, q)) && q.call == r.call.(pc := Done(Success))
    ensures q.env == r.env.(g := Insert(r.env.g, Node(c, p)).0, event := true, mem := q.env.mem)
  {
    q := ExtendCall(cfg, s, c, r, OfNotify(c, AllocNode(true)));
    q := ExtendCall(cfg, s, c, q, OfNotify(c, TryInsert));
    q := ExtendCall(cfg, s, c, q, OfNotify(c, SetEvent));
  }

  lemma NotifyFor(cfg: Config, s: State, c: CallId, r: CallStep, p: Port) returns (q: CallStep)
    requires Reachable(cfg, With(s, c, r)) && r.call.pc == CountedRename
    requires r.env.active && r.env.g.clientPort == Some(p)
    ensures Reachable(cfg, With(s, c, q)) && q.call == r.call.(pc := Done(Success))
    ensures q.env == r.env.(g := Insert(r.env.g, Node(c, p)).0, event := true, mem := q.env.mem)
  {
    q := NoteFor(cfg, s, c, r, p);
    q := QueueFor(cfg, s, c, q, p);
  }

  /** One delete, from arrival to its node in the queue, with nothing else happening meanwhile. */
  lemma StageOne(cfg: Config, s: State, c: CallId, f: FileId, p: Port, content: Content) returns (t: State)
    requires Reachable(cfg, s) && c !in s.calls && f in cfg.guarded && f !in s.env.files
    requires s.env.active && s.env.g.clientPort == Some(p)
    requires Reserve(s.env.g, cfg.countQueued).1 && s.env.g.reserved >= 0
    requires |cfg.paths(c)| <= MAX_PATH && ContentAllowed(cfg, s.env.world.clock, content)
    ensures Reachable(cfg, t) && t == s.(env := t.env, calls := t.calls)
    ensures t.calls == s.calls[c := Call(f, Disposition, Done(Success), Unasked, {})]
    ensures t.env.files == s.env.files[f := StagedBy(c)]
    ensures t.env.g.queue == s.env.g.queue + [Node(c, p)] && t.env.g.depth == s.env.g.depth + 1
    ensures t.env.g.reserved == s.env.g.reserved && t.env.g.clientPort == Some(p)
    ensures t.env.active && t.env.event && t.env.stats.notifySent == s.env.stats.notifySent
    ensures t.env.world == s.env.world.(staging := s.env.world.staging[c := Entry(s.env.world.clock, content)])
  {
    var r := ReserveFor(cfg, s, c, f);
    r := RenameFor(cfg, s, c, r, f, content);
    r := NotifyFor(cfg, s, c, r, p);
    t := With(s, c, r);
  }

  // ------------------------------------------------------------------ the queue bound

  /** With the guard the header describes, occupancy stays within the bound. */
  lemma RepairedGuardBoundsTheQueue(cfg: Config, s: State)
    requires Reachable(cfg, s) && cfg.countQueued
    ensures s.env.g.depth + s.env.g.reserved <= 512
  {
    ReachableHolds(cfg, s);
  }

  /** With the guard the driver has, which looks at Reserved alone, the queue grows without bound while
      the service is connected and slow: any number of deletes can be waiting. */
  lemma {:induction false} ActualGuardDoesNotBoundTheQueue(cfg: Config, n: nat) returns (s: State)
    requires !cfg.countQueued
    requires forall f :: 0 <= f < n ==> f in cfg.guarded && |cfg.paths(f)| <= MAX_PATH
    ensures Reachable(cfg, s) && |s.env.g.queue| == s.env.g.depth == n && s.env.g.reserved == 0
    ensures s.env.active && s.env.g.clientPort == Some(7) && s.env.world.clock == 0
    ensures forall c :: c in s.calls ==> c < n
    ensures forall f :: f in s.env.files ==> f < n
  {
    if n == 0 {
      s := Start(cfg, 0);
    } else {
      var m := ActualGuardDoesNotBoundTheQueue(cfg, n - 1);
      s := StageOne(cfg, m, n - 1, n - 1, 7, Plain(0));
    }
  }

  // ------------------------------------------------------------------ the staging sweep

  /** No reachable state has a staged file reclaimed by the sweep, or a staged directory robbed by it, unless
      its notification was lost. */
  ghost predicate SweepIsSafe(cfg: Config) {
    forall s :: Reachable(cfg, s) ==> s.env.world.reclaimed + s.env.world.gutted <= s.env.world.orphaned
  }

  lemma SweepSafeWhenTimely(cfg: Config)
    requires SweepCondition(cfg)
    ensures SweepIsSafe(cfg)
  {
    forall s | Reachable(cfg, s) ensures s.env.world.reclaimed + s.env.world.gutted <= s.env.world.orphaned {
      ReachableHolds(cfg, s);
    }
  }

  lemma SweepReclaims(cfg: Config, s: State, c: CallId, part: string, lastWrite: int) returns (t: State)
    requires Reachable(cfg, s) && s.env.world.sweeper.SawNoRow? && s.env.world.sweeper.target == c
    requires s.env.world.sweeper.part == part && s.env.world.sweeper.lastWrite == lastWrite
    requires c in s.env.world.staging && LastWriteOf(s.env.world.staging[c].content, part).Some?
    requires AgeInDays(s.env.world.clock, lastWrite) >= cfg.graceDays
    ensures Reachable(cfg, t) && c in t.env.world.reclaimed + t.env.world.gutted
    ensures t.env.world.orphaned == s.env.world.orphaned
  {
    t := Extend(cfg, s, OfSweep(Age));
    t := Extend(cfg, t, OfSweep(Delete));
  }

  /** A rename keeps the last-write time, and a directory says nothing of the times inside it: what is old
      is reclaimed while its notification is queued. */
  lemma SweepUnsafeWhenOld(cfg: Config, f: FileId, c: CallId, via: string, part: string, content: Content)
    requires f in cfg.guarded && |cfg.paths(c)| <= MAX_PATH && Reaches(cfg, c, via, part)
    requires ContentAllowed(cfg, 0, content) && LastWriteOf(content, part) == Some(0 - cfg.graceDays * DAY)
    ensures !SweepIsSafe(cfg)
  {
    var lastWrite: int := 0 - cfg.graceDays * DAY;
    var s := OneStaged(cfg, f, c, content);
    s := Extend(cfg, s, OfSweep(Query(c, via, part)));
    YoungerThanGrace(0, lastWrite, cfg.graceDays);
    s := SweepReclaims(cfg, s, c, part, lastWrite);
    assert c in s.env.world.reclaimed + s.env.world.gutted && c !in s.env.world.orphaned;
  }

  lemma SweepUnsafeForOldFiles(cfg: Config, f: FileId, c: CallId, via: string)
    requires !cfg.freshWrites && f in cfg.guarded && |cfg.paths(c)| <= MAX_PATH && Reaches(cfg, c, via, "")
    ensures !SweepIsSafe(cfg)
  {
    SweepUnsafeWhenOld(cfg, f, c, via, "", Plain(0 - cfg.graceDays * DAY));
  }

  lemma WakeUp(cfg: Config, s: State) returns (t: State)
    requires Reachable(cfg, s) && s.sender == Outer && s.env.active && s.env.event
    ensures Reachable(cfg, t) && t == s.(env := s.env.(event := false), sender := Inner)
  {
    t := ExtendSender(cfg, s, Loop);
    t := ExtendSender(cfg, t, Wake);
    t := ExtendSender(cfg, t, Recheck);
  }

  /** The send of the only queued notification returns, delivered or timed out. */
  lemma SendOne(cfg: Config, s: State, delivered: bool) returns (t: State)
    requires Reachable(cfg, s) && s.sender == Outer && s.env.active && s.env.event && |s.env.g.queue| == 1
    ensures Reachable(cfg, t) && t == s.(env := t.env, sender := Returned(s.env.g.queue[0], delivered, true))
    ensures t.env == s.env.(event := false, g := TakeForSend(s.env.g).0, world := t.env.world)
    ensures var w, c := s.env.world, s.env.g.queue[0].owner;
            t.env.world == if delivered then w.(received := w.received + {c}, delivered := w.delivered + {c})
                           else Orphan(w, {c})
  {
    t := WakeUp(cfg, s);
    t := ExtendSender(cfg, t, Take);
    t := ExtendSender(cfg, t, SendReturns(delivered, true));
  }

  /** One delete whose notification the service has in hand, on a clock that starts at zero. */
  lemma DeliverOne(cfg: Config, f: FileId, c: CallId, content: Content) returns (s: State)
    requires f in cfg.guarded && |cfg.paths(c)| <= MAX_PATH && ContentAllowed(cfg, 0, content)
    ensures Reachable(cfg, s)
    ensures s.env.world == Init(0).env.world.(staging := map[c := Entry(0, content)], received := {c}, delivered := {c})
  {
    s := OneStaged(cfg, f, c, content);
    s := SendOne(cfg, s, true);
  }

  /** The row is looked up before the age is computed: a notification persisted in between, late enough,
      loses its file although its row exists. */
  lemma SweepUnsafeWhenLate(cfg: Config, f: FileId, c: CallId, via: string)
    requires cfg.patience + cfg.slack >= cfg.graceDays * DAY && f in cfg.guarded
    requires |cfg.paths(c)| <= MAX_PATH && Reaches(cfg, c, via, "")
    ensures !SweepIsSafe(cfg)
  {
    var s := QueriedTooEarly(cfg, f, c, via);
    s := ExtendWorld(cfg, s, Persist(c, true));
    s := ExtendWorld(cfg, s, Tick(cfg.slack));
    YoungerThanGrace(cfg.patience + cfg.slack, 0, cfg.graceDays);
    s := SweepReclaims(cfg, s, c, "", 0);
    assert c in s.env.world.reclaimed + s.env.world.gutted && c !in s.env.world.orphaned;
  }

  lemma QueriedTooEarly(cfg: Config, f: FileId, c: CallId, via: string) returns (s: State)
    requires f in cfg.guarded && |cfg.paths(c)| <= MAX_PATH && Reaches(cfg, c, via, "")
    ensures Reachable(cfg, s)
    ensures s.env.world == Init(cfg.patience).env.world.(
                staging := map[c := Entry(0, Plain(0))], received := {c}, delivered := {c},
                sweeper := SawNoRow(c, "", 0, cfg.patience))
  {
    s := DeliverOne(cfg, f, c, Plain(0));
    s := ExtendWorld(cfg, s, Tick(cfg.patience));
    s := Extend(cfg, s, OfSweep(Query(c, via, "")));
  }

  /** A row that the lookup misses protects nothing: the file goes when it is old enough, however promptly
      the row was written. */
  lemma SweepUnsafeWhenMissed(cfg: Config, f: FileId, c: CallId, via: string, part: string, content: Content)
    requires f in cfg.guarded && |cfg.paths(c)| <= MAX_PATH
    requires Reaches(cfg, c, via, part) && !Known(cfg, {c}, via, part)
    requires ContentAllowed(cfg, 0, content) && LastWriteOf(content, part) == Some(0)
    ensures !SweepIsSafe(cfg)
  {
    var s := PersistedLongAgo(cfg, f, c, content);
    s := Extend(cfg, s, OfSweep(Query(c, via, part)));
    YoungerThanGrace(cfg.graceDays * DAY, 0, cfg.graceDays);
    s := SweepReclaims(cfg, s, c, part, 0);
    assert c in s.env.world.reclaimed + s.env.world.gutted && c !in s.env.world.orphaned;
  }

  lemma PersistedLongAgo(cfg: Config, f: FileId, c: CallId, content: Content) returns (s: State)
    requires f in cfg.guarded && |cfg.paths(c)| <= MAX_PATH && ContentAllowed(cfg, 0, content)
    ensures Reachable(cfg, s)
    ensures s.env.world == Init(cfg.graceDays * DAY).env.world.(
                staging := map[c := Entry(0, content)], rows := {c}, delivered := {c})
  {
    s := DeliverOne(cfg, f, c, content);
    s := ExtendWorld(cfg, s, Persist(c, true));
    s := ExtendWorld(cfg, s, Tick(cfg.graceDays * DAY));
  }

  lemma SweepUnsafeForExamined(cfg: Config, f: FileId, c: CallId, via: string)
    requires f in cfg.guarded && |cfg.paths(c)| <= MAX_PATH && Reaches(cfg, c, via, "")
    requires !(Matches(cfg, c, via) && Timely(cfg))
    ensures !SweepIsSafe(cfg)
  {
    if !cfg.freshWrites {
      SweepUnsafeForOldFiles(cfg, f, c, via);
    } else if !Timely(cfg) {
      SweepUnsafeWhenLate(cfg, f, c, via);
    } else {
      SweepUnsafeWhenMissed(cfg, f, c, via, "", Plain(0));
    }
  }

  lemma SweepUnsafeForInner(cfg: Config, f: FileId, c: CallId, via: string, part: string)
    requires f in cfg.guarded && |cfg.paths(c)| <= MAX_PATH && !cfg.flat && ProperPart(part) && Reaches(cfg, c, via, part)
    ensures !SweepIsSafe(cfg)
  {
    SweepUnsafeWhenOld(cfg, f, c, via, part, Tree(map[part := 0 - cfg.graceDays * DAY]));
  }

  lemma SweepUnsafeForSomeName(cfg: Config, f: FileId, c: CallId)
    requires f in cfg.guarded && |cfg.paths(c)| <= MAX_PATH && !NameIsSafe(cfg, c)
    ensures !SweepIsSafe(cfg)
  {
    if via, part :| !cfg.flat && ProperPart(part) && Reaches(cfg, c, via, part) {
      SweepUnsafeForInner(cfg, f, c, via, part);
    } else {
      var via :| Reaches(cfg, c, via, "") && !(Matches(cfg, c, via) && Timely(cfg));
      SweepUnsafeForExamined(cfg, f, c, via);
    }
  }

  /** Exactly when the sweep spares everything whose notification is not lost, wherever the file system
      finds the staged files below StoreRoot: for every path a delete can be staged under and every name the
      sweep examines it by, the looked-up text is the one in the row, and write times and delays stay within
      the grace period; and no staged directory the sweep gets into has files in it. */
  lemma SweepSafety(cfg: Config)
    requires cfg.guarded != {}
    ensures SweepIsSafe(cfg) <==> SweepCondition(cfg)
  {
    if SweepCondition(cfg) {
      SweepSafeWhenTimely(cfg);
    } else {
      var f :| f in cfg.guarded;
      var c: CallId :| |cfg.paths(c)| <= MAX_PATH && !NameIsSafe(cfg, c);
      SweepUnsafeForSomeName(cfg, f, c);
    }
  }

  /** The files the sweep passes over are the database and its three companions, in any case. */
  lemma DbFilesArePassedOver(name: string)
    ensures IsDbFile(name) <==>
            || SameText(name, "recycle.db") || SameText(name, "recycle.db-wal")
            || SameText(name, "recycle.db-shm") || SameText(name, "recycle.db-journal")
  {
    FoldsAgree(name, "recycle.db");
    FoldsAgree(name, "recycle.db-wal");
    FoldsAgree(name, "recycle.db-shm");
    FoldsAgree(name, "recycle.db-journal");
    assert Fold("recycle.db") == "RECYCLE.DB" && Fold("recycle.db-wal") == "RECYCLE.DB-WAL";
    assert Fold("recycle.db-shm") == "RECYCLE.DB-SHM" && Fold("recycle.db-journal") == "RECYCLE.DB-JOURNAL";
  }

  // ------------------------------------------------------------------ spellings of StoreRoot

  lemma {:induction false} DriveIndexOfLonger(vols: seq<Paths.Volume>, s: string, t: string)
    requires |s| >= 2
    ensures Paths.DriveIndex(vols, s + t) == Paths.DriveIndex(vols, s)
  {
    if vols != [] {
      DriveIndexOfLonger(vols[1..], s, t);
    }
  }

  lemma NtOfLonger(vols: seq<Paths.Volume>, s: string, t: string)
    requires Paths.DosToNt(vols, s).Some?
    ensures Paths.DosToNt(vols, s + t) == Some(Paths.DosToNt(vols, s).value + t)
  {
    DriveIndexOfLonger(vols, s, t);
    assert (s + t)[2..] == s[2..] + t && (s + t)[1] == s[1];
    var dev := vols[Paths.DriveIndex(vols, s).value].device;
    assert dev + (s[2..] + t) == dev + s[2..] + t;
  }

  /** StoreRoot, a usable one, in NT form. */
  function RootNt(cfg: Config): string
    requires Paths.DosToNt(cfg.vols, cfg.storeRoot).Some?
  {
    Paths.DosToNt(cfg.vols, cfg.storeRoot).value
  }

  predicate Rooted(cfg: Config) {
    Paths.DosToNt(cfg.vols, cfg.storeRoot).Some?
  }

  /** The sweep looks up StoreRoot's NT form followed by the names it found; a row matches exactly when that
      is the staging path, letter for letter, for a path short of the limit. */
  lemma MatchesMeans(cfg: Config, c: CallId, via: string)
    requires Rooted(cfg) && |cfg.paths(c)| < MAX_PATH
    ensures Matches(cfg, c, via) <==> RootNt(cfg) + via == cfg.paths(c)
  {
    NtOfLonger(cfg.vols, cfg.storeRoot, via);
    assert Child(cfg, via, "") == cfg.storeRoot + via;
  }

  predicate Doubled(s: string, i: nat) {
    i + 1 < |s| && s[i] == '\\' && s[i + 1] == '\\'
  }

  /** Whatever the file system makes of it, a StoreRoot that ends in a backslash, or has a doubled one, loses
      everything the sweep examines, rows or not, ... */
  lemma DoubledBackslashIsUnsafe(cfg: Config, f: FileId, c: CallId, via: string, i: nat)
    requires f in cfg.guarded && Rooted(cfg) && |cfg.paths(c)| < MAX_PATH && Reaches(cfg, c, via, "")
    requires Doubled(RootNt(cfg) + via, i) && forall k :: !Doubled(cfg.paths(c), k)
    ensures !SweepIsSafe(cfg)
  {
    MatchesMeans(cfg, c, via);
    SweepUnsafeForExamined(cfg, f, c, via);
  }

  lemma TrailingBackslashDoubles(cfg: Config, via: string)
    requires Rooted(cfg) && |cfg.storeRoot| > 2 && cfg.storeRoot[|cfg.storeRoot| - 1] == '\\' && "\\" <= via
    ensures Doubled(RootNt(cfg) + via, |RootNt(cfg)| - 1)
  {
    assert RootNt(cfg)[|RootNt(cfg)| - 1] == cfg.storeRoot[2..][|cfg.storeRoot| - 3];
  }

  /** ... and so does one that differs from the driver's spelling in any letter: other case, a forward slash,
      a dot component, a link, a drive that is mapped to another device now. */
  lemma OtherSpellingIsUnsafe(cfg: Config, f: FileId, c: CallId, via: string)
    requires f in cfg.guarded && Rooted(cfg) && |cfg.paths(c)| < MAX_PATH && Reaches(cfg, c, via, "")
    requires !(RootNt(cfg) <= cfg.paths(c))
    ensures !SweepIsSafe(cfg)
  {
    MatchesMeans(cfg, c, via);
    SweepUnsafeForExamined(cfg, f, c, via);
  }

  /** With StoreRoot spelled as it should be, a file inside a staged directory still has no row: it goes
      however promptly the directory's row was written. */
  lemma InnerFileIsNeverKnown(cfg: Config, f: FileId, c: CallId, via: string, part: string)
    requires f in cfg.guarded && Rooted(cfg) && |cfg.paths(c)| < MAX_PATH && RootNt(cfg) + via == cfg.paths(c)
    requires !cfg.flat && ProperPart(part) && Reaches(cfg, c, via, part)
    ensures !Known(cfg, {c}, via, part)
    ensures exists s :: Reachable(cfg, s) &&
                        c in s.env.world.rows && c in s.env.world.gutted && c !in s.env.world.orphaned
  {
    NtOfLonger(cfg.vols, cfg.storeRoot, via + part);
    assert Child(cfg, via, part) == cfg.storeRoot + (via + part);
    assert |RootNt(cfg) + (via + part)| > |Recorded(cfg, c)|;
    var s := PersistedLongAgo(cfg, f, c, Tree(map[part := 0]));
    s := Extend(cfg, s, OfSweep(Query(c, via, part)));
    YoungerThanGrace(cfg.graceDays * DAY, 0, cfg.graceDays);
    s := Extend(cfg, s, OfSweep(Age));
    s := Extend(cfg, s, OfSweep(Delete));
  }

  /** The condition is met when everything staged is found under StoreRoot by the text of its own path, the
      staging area is flat and the paths are short, and everything is timely. */
  lemma UsualSetupIsSafe(cfg: Config)
    requires cfg.flat && Timely(cfg) && Rooted(cfg)
    requires forall c: CallId, via :: via in cfg.below(c) ==> RootNt(cfg) + via == cfg.paths(c)
    requires forall c: CallId :: |cfg.paths(c)| < MAX_PATH
    ensures SweepIsSafe(cfg)
  {
    forall c: CallId ensures NameIsSafe(cfg, c) {
      forall via | Reaches(cfg, c, via, "") ensures Matches(cfg, c, via) {
        MatchesMeans(cfg, c, via);
      }
    }
    SweepSafeWhenTimely(cfg);
  }
}
