/** What each locked step of the master sends: to every client, and on every backend's
    control stream. */
module MasterMessages {
  import opened Options
  import opened Scheduler
  import opened Routing
  import opened Targets
  import opened Master
  import opened MasterRuns
  import opened MasterTheorems
  import opened MasterQueue
  import opened MasterTargets
  import opened MasterShapes
  import opened MasterSteps
  import opened MasterEffects

  // ---------------------------------------------------------------- to an active run's client

  /** What the client of an active run is sent: the run's output as it came, the word on how
      it ended with a Complete unless it is profiled, and a Complete for its last file. */
  ghost function Heard(s: State, e: Event, id: Id): seq<Msg>
    requires id in s.active
  {
    match e
    case Output(of, msg) => if of == id then [msg] else []
    case FilesDone(of) => if of == id then [Complete] else []
    case _ =>
      match Verdict(s, e, id)
      case None => []
      case Some(msg) => if s.active[id].handle.profiled then [msg] else [msg, Complete]
  }

  ghost predicate Hears(s: State, e: Event, t: State, id: Id)
    requires id in s.active
  {
    var h := s.active[id].handle;
    Log(t.logs, h) == Log(s.logs, h) + Heard(s, e, id)
  }

  /** Reconciling tells the client of an active run nothing, and keeps what finishing needs. */
  lemma ReconcileSilent(s: State, id: Id)
    requires QueueOk(s) && ActiveOk(s) && id in s.active
    ensures id in Reconcile(s).active && Reconcile(s).active[id] == s.active[id] && ActiveOk(Reconcile(s))
    ensures Log(Reconcile(s).logs, s.active[id].handle) == Log(s.logs, s.active[id].handle)
  {
    ActiveLeft(s, id);
    ReconcileActiveOk(s);
  }

  lemma FinishHears(u: State, id: Id, of: Id, msg: Msg, outcome: Outcome)
    requires ActiveOk(u) && id in u.active
    ensures var h := u.active[id].handle;
            Log(Finish(u, of, msg, outcome).logs, h) == Log(u.logs, h) + if of == id then Ending(h, msg) else []
  {
    if of in u.active { FinishIs(u, of, msg, outcome); }
  }

  lemma FinishedHears(s: State, e: Event, of: Id, msg: Msg, outcome: Outcome, id: Id)
    requires QueueOk(s) && ActiveOk(s) && id in s.active && (e.Done? || e.KilledBy?)
    requires Verdict(s, e, id) == if of == id then Some(msg) else None
    ensures Hears(s, e, Finish(Reconcile(s), of, msg, outcome), id)
  {
    ReconcileSilent(s, id);
    FinishHears(Reconcile(s), id, of, msg, outcome);
  }

  lemma DoneHears(s: State, of: Id, success: bool, id: Id)
    requires QueueOk(s) && ActiveOk(s) && Settled(s) && id in s.active
    ensures Hears(s, Done(of, success), PluginDone(s, of, success), id)
  {
    DoneShape(s, of, success);
    FinishedHears(s, Done(of, success), of, ExecutionDone(success), if success then Finished else Errored, id);
  }

  lemma KilledHears(s: State, of: Id, id: Id)
    requires QueueOk(s) && ActiveOk(s) && Settled(s) && id in s.active
    ensures Hears(s, KilledBy(of), PluginKilled(s, of), id)
  {
    KilledShape(s, of);
    FinishedHears(s, KilledBy(of), of, ExecutionKilled, Killed, id);
  }

  lemma OrphanOnce(s: State, orphans: seq<Id>, id: Id)
    requires ActiveOk(s) && DistinctActive(s, orphans) && id in s.active
    ensures HasOrphan(s, orphans, s.active[id].handle) <==> id in orphans
  {
  }

  lemma OrphanHears(s: State, e: Event, u: State, t: State, id: Id)
    requires Enabled(s, e) && (e.BackendLost? || e.DomLost?) && id in s.active && ActiveOk(u)
    requires id in u.active && u.active[id] == s.active[id] && DistinctActive(u, e.orphans) && t.logs == FinishAll(u, e.orphans).logs
    requires Log(u.logs, s.active[id].handle) == Log(s.logs, s.active[id].handle)
    ensures Hears(s, e, t, id)
  {
    OrphansAre(s, e, id);
    OrphanOnce(u, e.orphans, id);
    FinishAllLog(u, e.orphans, s.active[id].handle);
  }

  lemma LostBackendHears(s: State, backend: Id, orphans: seq<Id>, id: Id)
    requires QueueOk(s) && ActiveOk(s) && Settled(s) && Enabled(s, BackendLost(backend, orphans)) && id in s.active
    ensures Hears(s, BackendLost(backend, orphans), BackendGone(s, backend, orphans), id)
  {
    var u := Without(s, backend);
    OrphansActive(s, BackendLost(backend, orphans));
    WithoutOk(s, backend);
    if orphans == [] {
      OrphanHears(s, BackendLost(backend, orphans), u, u, id);
    } else {
      BackendShape(s, backend, orphans);
      ReconcileSilent(u, id);
      SettledActive(u);
      OrphanHears(s, BackendLost(backend, orphans), Reconcile(u), BackendGone(s, backend, orphans), id);
    }
  }

  lemma LostDomHears(s: State, dom: Id, orphans: seq<Id>, id: Id)
    requires QueueOk(s) && ActiveOk(s) && Settled(s) && Enabled(s, DomLost(dom, orphans)) && id in s.active
    ensures Hears(s, DomLost(dom, orphans), DomGone(s, dom, orphans), id)
  {
    OrphansActive(s, DomLost(dom, orphans));
    if orphans == [] {
      UnsweptDom(s, dom);
      DropKeeps(PinnedTo(dom), s);
      ReconcileSilent(Unpinned(s, dom), id);
      OrphanHears(s, DomLost(dom, orphans), Reconcile(Unpinned(s, dom)), Reconcile(Unpinned(s, dom)), id);
    } else {
      SweptDom(s, dom, orphans);
      ReconcileSilent(s, id);
      SettledActive(s);
      OrphanHears(s, DomLost(dom, orphans), Reconcile(s), DomGone(s, dom, orphans), id);
    }
  }

  lemma SubmitHears(s: State, run: Request, id: Id)
    requires QueueOk(s) && ActiveOk(s) && Fresh(s, run) && id in s.active
    ensures Hears(s, Submit(run), RouteOrQueue(s, run), id)
  {
    if MatchOf(s.backends, run).None? {
      EnqueueKeeps(Nobody(), s, run);
      ReconcileSilent(s.(pending := s.pending + [run]), id);
    }
  }

  lemma SnapshotHears(s: State, backend: Id, doms: seq<Dom>, id: Id)
    requires QueueOk(s) && ActiveOk(s) && id in s.active
    ensures Hears(s, SnapshotTaken(backend, doms), Snapshot(s, backend, doms), id)
  {
    var u := s.(backends := WithSnapshot(s.backends, backend, doms));
    SameKeeps(Nobody(), s, u);
    ReconcileSilent(u, id);
  }

  /** The client of every active run is sent exactly that, in this order. */
  lemma StepHears(s: State, e: Event, id: Id)
    requires Inv(s) && Settled(s) && Enabled(s, e) && id in s.active
    ensures var h := s.active[id].handle; Log(Next(s, e).logs, h) == Log(s.logs, h) + Heard(s, e, id)
  {
    match e
    case Submit(run) => SubmitHears(s, run, id);
    case BackendLost(backend, orphans) => LostBackendHears(s, backend, orphans, id);
    case SnapshotTaken(backend, doms) => SnapshotHears(s, backend, doms, id);
    case Nudge => ReconcileSilent(s, id);
    case DomLost(dom, orphans) => LostDomHears(s, dom, orphans, id);
    case Done(of, success) => DoneHears(s, of, success, id);
    case KilledBy(of) => KilledHears(s, of, id);
    case _ => PassingHears(s, e, id);
  }

  lemma PassingHears(s: State, e: Event, id: Id)
    requires ActiveOk(s) && id in s.active && (e.Register? || e.Output? || e.FilesDone? || e.ClientLeft? || e.ClientSays?)
    ensures Hears(s, e, Next(s, e), id)
  {
  }

  // ------------------------------------------------------------------- to any other client

  /** The step takes the run out of the queue for want of a connected DOM of its session.
      A lost DOM's pinned runs go first if no run was active on it, and last otherwise. */
  ghost predicate Drained(s: State, e: Event, backends: seq<Backend>, r: Request) {
    && r in Waiting(s, e) && Sifts(s, e) && !CanGo(backends, r) && Stranded(backends, r)
    && (e.DomLost? && e.orphans == [] ==> r.domId != Some(e.dom))
  }

  ghost predicate Idle(s: State, h: Handle) {
    forall id :: id in s.active ==> s.active[id].handle != h
  }

  ghost predicate Overhears(s: State, e: Event, t: State, h: Handle) {
    Log(t.logs, h) == Log(s.logs, h) +
      if exists r: Request :: r.handle == h && Drained(s, e, t.backends, r) then [ExecutionKilled, Complete] else []
  }

  lemma SiftedLog(s: State, e: Event, u: State, h: Handle)
    requires DistinctRuns(u.pending) && u.logs == s.logs && Sifts(s, e)
    requires forall r :: r in u.pending <==> r in Waiting(s, e) && (e.DomLost? && e.orphans == [] ==> r.domId != Some(e.dom))
    ensures Overhears(s, e, Reconcile(u), h)
  {
    ReconcileLogs(u, h);
    ReconcileBackends(u);
    forall r | r in u.pending
      ensures MatchOf(u.backends, r).None? && Dead(u.backends, r) <==> Drained(s, e, u.backends, r)
    {
      MatchedGo(u.backends, r);
    }
    assert Log(s.logs, h) + KILLED == Log(s.logs, h) + [ExecutionKilled, Complete];
  }

  lemma OverhearsSame(s: State, e: Event, t: State, u: State, h: Handle)
    requires Overhears(s, e, t, h) && u.backends == t.backends && Log(u.logs, h) == Log(t.logs, h)
    ensures Overhears(s, e, u, h)
  {
  }

  lemma NothingSaid(s: State, e: Event, t: State, h: Handle)
    requires !Sifts(s, e) && Log(t.logs, h) == Log(s.logs, h)
    ensures Overhears(s, e, t, h)
  {
    assert Log(s.logs, h) + [] == Log(s.logs, h);
  }

  lemma FinishSilent(u: State, of: Id, msg: Msg, outcome: Outcome, h: Handle)
    requires Idle(u, h)
    ensures Log(Finish(u, of, msg, outcome).logs, h) == Log(u.logs, h)
  {
    if of in u.active { FinishIs(u, of, msg, outcome); }
  }

  lemma CompletedOverhears(s: State, e: Event, of: Id, msg: Msg, outcome: Outcome, h: Handle)
    requires QueueOk(s) && Settled(s) && Idle(s, h) && (e.Done? || e.KilledBy?)
    ensures Overhears(s, e, Finish(Reconcile(s), of, msg, outcome), h)
  {
    assert Waiting(s, e) == s.pending;
    SiftedLog(s, e, s, h);
    SettledActive(s);
    FinishSilent(Reconcile(s), of, msg, outcome, h);
    FinishQueue(Reconcile(s), of, msg, outcome);
    OverhearsSame(s, e, Reconcile(s), Finish(Reconcile(s), of, msg, outcome), h);
  }

  lemma FinishAllSilent(u: State, orphans: seq<Id>, h: Handle)
    requires ActiveOk(u) && DistinctActive(u, orphans) && Idle(u, h)
    ensures Log(FinishAll(u, orphans).logs, h) == Log(u.logs, h) && FinishAll(u, orphans).backends == u.backends
  {
    FinishAllLog(u, orphans, h);
    FinishAllState(u, orphans);
  }

  lemma LostBackendOverhears(s: State, backend: Id, orphans: seq<Id>, h: Handle)
    requires QueueOk(s) && ActiveOk(s) && Settled(s) && Enabled(s, BackendLost(backend, orphans)) && Idle(s, h)
    ensures Overhears(s, BackendLost(backend, orphans), BackendGone(s, backend, orphans), h)
  {
    var e, u := BackendLost(backend, orphans), Without(s, backend);
    OrphansActive(s, e);
    WithoutOk(s, backend);
    if orphans == [] {
      NothingSaid(s, e, u, h);
    } else {
      assert Waiting(s, e) == s.pending;
      SiftedLog(s, e, u, h);
      BackendShape(s, backend, orphans);
      SettledActive(u);
      ReconcileActiveOk(u);
      FinishAllSilent(Reconcile(u), orphans, h);
      OverhearsSame(s, e, Reconcile(u), FinishAll(Reconcile(u), orphans), h);
    }
  }

  lemma LostDomOverhears(s: State, dom: Id, orphans: seq<Id>, h: Handle)
    requires QueueOk(s) && ActiveOk(s) && Settled(s) && Enabled(s, DomLost(dom, orphans)) && Idle(s, h)
    ensures Overhears(s, DomLost(dom, orphans), DomGone(s, dom, orphans), h)
  {
    var e := DomLost(dom, orphans);
    assert Waiting(s, e) == s.pending;
    OrphansActive(s, e);
    if orphans == [] {
      UnsweptDom(s, dom);
      KeepDistinct(PinnedTo(dom), s.pending);
      KeepMembers(PinnedTo(dom), s.pending);
      SiftedLog(s, e, Unpinned(s, dom), h);
    } else {
      SiftedLog(s, e, s, h);
      SweptDom(s, dom, orphans);
      SettledActive(s);
      ReconcileActiveOk(s);
      FinishAllSilent(Reconcile(s), orphans, h);
      OverhearsSame(s, e, Reconcile(s), DomGone(s, dom, orphans), h);
    }
  }

  lemma SubmitOverhears(s: State, run: Request, h: Handle)
    requires QueueOk(s) && ActiveOk(s) && Fresh(s, run)
    ensures Overhears(s, Submit(run), RouteOrQueue(s, run), h)
  {
    MatchedGo(s.backends, run);
    if MatchOf(s.backends, run).None? {
      EnqueueKeeps(Nobody(), s, run);
      SiftedLog(s, Submit(run), s.(pending := s.pending + [run]), h);
    } else {
      NothingSaid(s, Submit(run), RouteOrQueue(s, run), h);
    }
  }

  lemma SnapshotOverhears(s: State, backend: Id, doms: seq<Dom>, h: Handle)
    requires QueueOk(s)
    ensures Overhears(s, SnapshotTaken(backend, doms), Snapshot(s, backend, doms), h)
  {
    assert Waiting(s, SnapshotTaken(backend, doms)) == s.pending;
    SiftedLog(s, SnapshotTaken(backend, doms), s.(backends := WithSnapshot(s.backends, backend, doms)), h);
  }

  lemma NudgeOverhears(s: State, h: Handle)
    requires QueueOk(s)
    ensures Overhears(s, Nudge, Reconcile(s), h)
  {
    assert Waiting(s, Nudge) == s.pending;
    SiftedLog(s, Nudge, s, h);
  }

  lemma DoneOverhears(s: State, of: Id, success: bool, h: Handle)
    requires QueueOk(s) && Settled(s) && Idle(s, h)
    ensures Overhears(s, Done(of, success), PluginDone(s, of, success), h)
  {
    DoneShape(s, of, success);
    CompletedOverhears(s, Done(of, success), of, ExecutionDone(success), if success then Finished else Errored, h);
  }

  lemma KilledOverhears(s: State, of: Id, h: Handle)
    requires QueueOk(s) && Settled(s) && Idle(s, h)
    ensures Overhears(s, KilledBy(of), PluginKilled(s, of), h)
  {
    KilledShape(s, of);
    CompletedOverhears(s, KilledBy(of), of, ExecutionKilled, Killed, h);
  }

  lemma PassingOverhears(s: State, e: Event, h: Handle)
    requires Idle(s, h) && (e.Register? || e.Output? || e.FilesDone? || e.ClientLeft? || e.ClientSays?)
    ensures Overhears(s, e, Next(s, e), h)
  {
    NothingSaid(s, e, Next(s, e), h);
  }

  lemma IdleOverhears(s: State, e: Event, h: Handle)
    requires QueueOk(s) && ActiveOk(s) && Settled(s) && Enabled(s, e) && Idle(s, h)
    ensures Overhears(s, e, Next(s, e), h)
  {
    match e
    case Submit(run) => SubmitOverhears(s, run, h);
    case BackendLost(backend, orphans) => LostBackendOverhears(s, backend, orphans, h);
    case SnapshotTaken(backend, doms) => SnapshotOverhears(s, backend, doms, h);
    case Nudge => NudgeOverhears(s, h);
    case DomLost(dom, orphans) => LostDomOverhears(s, dom, orphans, h);
    case Done(of, success) => DoneOverhears(s, of, success, h);
    case KilledBy(of) => KilledOverhears(s, of, h);
    case _ => PassingOverhears(s, e, h);
  }

  /** The client of a run that is not active is sent nothing, or, if the step takes its run
      out of the queue for its session's sake, ExecutionKilled and Complete. */
  lemma StepOverhears(s: State, e: Event, h: Handle)
    requires Inv(s) && Settled(s) && Enabled(s, e) && forall id :: id in s.active ==> s.active[id].handle != h
    ensures Log(Next(s, e).logs, h) == Log(s.logs, h) +
            if exists r: Request :: r.handle == h && Drained(s, e, Next(s, e).backends, r) then [ExecutionKilled, Complete] else []
  {
    IdleOverhears(s, e, h);
  }
}
