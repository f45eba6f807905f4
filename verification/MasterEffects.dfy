/** What each locked step of the master does to the active runs, to the clients' channels
    and to what goes out, for every run, every channel and every message. */
module MasterEffects {
  import opened Options
  import opened Scheduler
  import opened Routing
  import opened Targets
  import opened Master
  import opened MasterRuns
  import opened MasterTheorems
  import opened MasterQueue
  import opened MasterTargets
  import opened MasterShapes
  import opened MasterSteps

  // ------------------------------------------------------------------------ active runs

  /** How a run stands after its client was told this. */
  function OutcomeOf(said: Option<Msg>, before: Outcome): Outcome {
    match said
    case None => before
    case Some(ExecutionDone(success)) => if success then Finished else Errored
    case Some(_) => Killed
  }

  /** A run whose end the step reports leaves unless it is profiled, one whose files are all
      there leaves, any other stays on its DOM and its channel. */
  ghost predicate Fares(s: State, e: Event, t: State, id: Id)
    requires id in s.active
  {
    var run, said := s.active[id], Verdict(s, e, id);
    if e == FilesDone(id) || (said.Some? && !run.handle.profiled) then id !in t.active
    else id in t.active && t.active[id] == Run(run.domId, run.handle, OutcomeOf(said, run.outcome))
  }

  /** A run becomes active exactly if it was waiting and has a DOM to go to, on that DOM. */
  ghost predicate Begins(s: State, e: Event, t: State, id: Id) {
    && (id in t.active <==> exists r :: r in Waiting(s, e) && r.id == id && CanGo(t.backends, r))
    && (id in t.active ==> exists r :: r in Waiting(s, e) && Started(t, id, r))
  }

  /** The run is active under this id, on the DOM it is given, and on its own channel. */
  ghost predicate Started(t: State, id: Id, r: Request)
    requires id in t.active
  {
    r.id == id && MatchOf(t.backends, r) == Some(t.active[id].domId) && t.active[id] == Run(t.active[id].domId, r.handle, Running)
  }

  ghost predicate Dispatches(s: State, e: Event) {
    e.SnapshotTaken? || (e.Submit? && CanGo(s.backends, e.run))
  }

  lemma FewerGo(s: State, backends: seq<Backend>, r: Request)
    requires Settled(s) && r in s.pending && forall d :: d in AllDoms(backends) ==> d in AllDoms(s.backends)
    ensures !CanGo(backends, r)
  {
    FewerSettled(s, s.(backends := backends));
    MatchedGo(backends, r);
  }

  /** No run that waits has a DOM to go to after any other step. */
  lemma NoneGo(s: State, e: Event, r: Request)
    requires Settled(s) && Enabled(s, e) && !Dispatches(s, e) && r in Waiting(s, e)
    ensures !CanGo(Next(s, e).backends, r)
  {
    var at := StepBackends(s, e);
    if e.Submit? && r == e.run { return; }
    if e.BackendLost? {
      WithoutDoms(s.backends, e.backend);
      SweepBackends(Without(s, e.backend), e.orphans);
    }
    if e.Register? { RegisteredDoms(s.backends, e.order); }
    FewerGo(s, Next(s, e).backends, r);
  }

  lemma SettledActive(s: State)
    requires Settled(s)
    ensures Reconcile(s).active == s.active && Reconcile(s).backends == s.backends
  {
    SettledReconcile(s);
  }

  /** A run completed, and then the law under any id that was active. */
  lemma FinishActive(s: State, e: Event, u: State, id: Id, of: Id, msg: Msg, outcome: Outcome)
    requires (e.Done? || e.KilledBy?) && u.active == s.active && id in s.active
    requires Verdict(s, e, id) == if of == id then Some(msg) else None
    requires outcome == OutcomeOf(Some(msg), Running)
    ensures Fares(s, e, Finish(u, of, msg, outcome), id)
  {
    if of in u.active { FinishIs(u, of, msg, outcome); }
  }

  lemma DoneActive(s: State, of: Id, success: bool, id: Id)
    requires QueueOk(s) && Settled(s) && id in s.active
    ensures Fares(s, Done(of, success), PluginDone(s, of, success), id)
  {
    DoneShape(s, of, success);
    SettledActive(s);
    FinishActive(s, Done(of, success), Reconcile(s), id, of, ExecutionDone(success), if success then Finished else Errored);
  }

  lemma KilledActive(s: State, of: Id, id: Id)
    requires QueueOk(s) && Settled(s) && id in s.active
    ensures Fares(s, KilledBy(of), PluginKilled(s, of), id)
  {
    KilledShape(s, of);
    SettledActive(s);
    FinishActive(s, KilledBy(of), Reconcile(s), id, of, ExecutionKilled, Killed);
  }

  lemma OrphanActive(s: State, e: Event, u: State, t: State, id: Id)
    requires Enabled(s, e) && (e.BackendLost? || e.DomLost?) && id in s.active
    requires u.active == s.active && DistinctActive(u, e.orphans) && t.active == FinishAll(u, e.orphans).active
    ensures Fares(s, e, t, id)
  {
    OrphansAre(s, e, id);
    FinishAllState(u, e.orphans);
    assert OrphanState(u, FinishAll(u, e.orphans), e.orphans, id);
  }

  lemma LostActive(s: State, e: Event, id: Id)
    requires QueueOk(s) && ActiveOk(s) && Settled(s) && Enabled(s, e) && (e.BackendLost? || e.DomLost?) && id in s.active
    ensures Fares(s, e, Next(s, e), id)
  {
    OrphansActive(s, e);
    var u := if e.BackendLost? then Without(s, e.backend) else s;
    if e.BackendLost? { WithoutOk(s, e.backend); }
    SettledReconcile(u);
    if e.orphans == [] {
      if e.DomLost? {
        UnsweptDom(s, e.dom);
        NothingDispatched(s, PinnedTo(e.dom));
      }
      OrphanActive(s, e, u, Next(s, e), id);
    } else {
      if e.BackendLost? { BackendShape(s, e.backend, e.orphans); } else { SweptDom(s, e.dom, e.orphans); }
      OrphanActive(s, e, Reconcile(u), Next(s, e), id);
    }
  }

  lemma SubmitActive(s: State, run: Request, id: Id)
    requires QueueOk(s) && Settled(s) && Fresh(s, run) && id !in s.active
    ensures Begins(s, Submit(run), RouteOrQueue(s, run), id)
  {
    var t := RouteOrQueue(s, run);
    assert run in Waiting(s, Submit(run));
    MatchedGo(s.backends, run);
    if MatchOf(s.backends, run).Some? {
      RoutedActive(s, run, id);
    } else {
      SettledReconcile(s.(pending := s.pending + [run]));
      assert t.active == s.active && t.backends == s.backends;
      forall r | r in Waiting(s, Submit(run)) ensures !CanGo(t.backends, r) { MatchedGo(s.backends, r); }
    }
  }

  lemma RoutedActive(s: State, run: Request, id: Id)
    requires QueueOk(s) && Settled(s) && Fresh(s, run) && id !in s.active && MatchOf(s.backends, run).Some?
    ensures Begins(s, Submit(run), Dispatch(s, MatchOf(s.backends, run).value, run), id)
  {
    var t := Dispatch(s, MatchOf(s.backends, run).value, run);
    assert t.active == s.active[run.id := Run(MatchOf(s.backends, run).value, run.handle, Running)] && t.backends == s.backends;
    assert run in Waiting(s, Submit(run));
    MatchedGo(s.backends, run);
    if id == run.id {
      assert Started(t, id, run);
    } else {
      forall r | r in Waiting(s, Submit(run)) && r.id == id ensures !CanGo(t.backends, r) { MatchedGo(s.backends, r); }
    }
  }

  /** A reconciliation that finds DOMs. */
  lemma SiftedActive(s: State, e: Event, u: State, id: Id)
    requires QueueOk(u) && u.pending == Waiting(s, e) && u.active == s.active && id !in s.active
    ensures Begins(s, e, Reconcile(u), id)
  {
    QueueDistinct(u);
    ReconcileBackends(u);
    var k := ReconcileActive(u, id);
    forall r | r in u.pending ensures MatchOf(u.backends, r).Some? <==> CanGo(u.backends, r) { MatchedGo(u.backends, r); }
    if k.Some? {
      assert u.pending[k.value] in u.pending;
      InQueue(u, u.pending[k.value]);
      assert Started(Reconcile(u), id, u.pending[k.value]);
    } else if r :| r in u.pending && r.id == id {
      InQueue(u, r);
    }
  }

  lemma SnapshotActive(s: State, backend: Id, doms: seq<Dom>, id: Id)
    requires QueueOk(s) && ActiveOk(s) && id !in s.active
    ensures Begins(s, SnapshotTaken(backend, doms), Snapshot(s, backend, doms), id)
  {
    var u := s.(backends := WithSnapshot(s.backends, backend, doms));
    SameKeeps(Nobody(), s, u);
    assert Waiting(s, SnapshotTaken(backend, doms)) == s.pending;
    SiftedActive(s, SnapshotTaken(backend, doms), u, id);
  }

  lemma SnapshotFares(s: State, backend: Id, doms: seq<Dom>, id: Id)
    requires QueueOk(s) && ActiveOk(s) && id in s.active
    ensures Fares(s, SnapshotTaken(backend, doms), Snapshot(s, backend, doms), id)
  {
    var u := s.(backends := WithSnapshot(s.backends, backend, doms));
    SameKeeps(Nobody(), s, u);
    ActiveLeft(u, id);
  }

  lemma SubmitFares(s: State, run: Request, id: Id)
    requires Settled(s) && Fresh(s, run) && id in s.active
    ensures Fares(s, Submit(run), RouteOrQueue(s, run), id)
  {
    if MatchOf(s.backends, run).None? { SettledActive(s.(pending := s.pending + [run])); }
  }

  /** Steps that neither end runs nor look for DOMs. */
  lemma PassingActive(s: State, e: Event, id: Id)
    requires id in s.active && (e.Register? || e.Output? || e.FilesDone? || e.ClientLeft? || e.ClientSays?)
    ensures Fares(s, e, Next(s, e), id)
  {
  }

  lemma NudgedActive(s: State, id: Id)
    requires Settled(s) && id in s.active
    ensures Fares(s, Nudge, Reconcile(s), id)
  {
    SettledActive(s);
  }

  lemma OldActive(s: State, e: Event, id: Id)
    requires QueueOk(s) && ActiveOk(s) && Settled(s) && Enabled(s, e) && id in s.active
    ensures Fares(s, e, Next(s, e), id)
  {
    match e
    case Submit(run) => SubmitFares(s, run, id);
    case SnapshotTaken(backend, doms) => SnapshotFares(s, backend, doms, id);
    case BackendLost(_, _) => LostActive(s, e, id);
    case DomLost(_, _) => LostActive(s, e, id);
    case Done(of, success) => DoneActive(s, of, success, id);
    case KilledBy(of) => KilledActive(s, of, id);
    case Nudge => NudgedActive(s, id);
    case _ => PassingActive(s, e, id);
  }

  /** Steps that find nothing a DOM leave no run active that was not. */
  lemma NoneNew(s: State, e: Event, id: Id)
    requires QueueOk(s) && ActiveOk(s) && Settled(s) && Enabled(s, e) && !e.Submit? && !e.SnapshotTaken? && id !in s.active
    ensures id !in Next(s, e).active
  {
    match e
    case BackendLost(_, _) => LostNew(s, e, id);
    case DomLost(_, _) => LostNew(s, e, id);
    case Done(of, success) =>
      DoneShape(s, of, success);
      FinishNew(s, of, ExecutionDone(success), if success then Finished else Errored, id);
    case KilledBy(of) =>
      KilledShape(s, of);
      FinishNew(s, of, ExecutionKilled, Killed, id);
    case Nudge => SettledReconcile(s);
    case _ =>
  }

  lemma FinishNew(s: State, of: Id, msg: Msg, outcome: Outcome, id: Id)
    requires Settled(s) && id !in s.active
    ensures id !in Finish(Reconcile(s), of, msg, outcome).active
  {
    SettledReconcile(s);
    if of in s.active { FinishIs(Reconcile(s), of, msg, outcome); }
  }

  lemma LostNew(s: State, e: Event, id: Id)
    requires QueueOk(s) && ActiveOk(s) && Settled(s) && Enabled(s, e) && (e.BackendLost? || e.DomLost?) && id !in s.active
    ensures id !in Next(s, e).active
  {
    OrphansActive(s, e);
    var u := if e.BackendLost? then Without(s, e.backend) else s;
    if e.BackendLost? { WithoutOk(s, e.backend); }
    SettledReconcile(u);
    if e.orphans == [] {
      if e.DomLost? {
        UnsweptDom(s, e.dom);
        NothingDispatched(s, PinnedTo(e.dom));
      }
    } else {
      if e.BackendLost? { BackendShape(s, e.backend, e.orphans); } else { SweptDom(s, e.dom, e.orphans); }
      FinishAllState(Reconcile(u), e.orphans);
      assert OrphanState(Reconcile(u), FinishAll(Reconcile(u), e.orphans), e.orphans, id);
    }
  }

  lemma NewActive(s: State, e: Event, id: Id)
    requires QueueOk(s) && ActiveOk(s) && Settled(s) && Enabled(s, e) && id !in s.active
    ensures Begins(s, e, Next(s, e), id)
  {
    match e
    case Submit(run) => SubmitActive(s, run, id);
    case SnapshotTaken(backend, doms) => SnapshotActive(s, backend, doms, id);
    case _ =>
      NoneNew(s, e, id);
      forall r | r in Waiting(s, e) ensures !CanGo(Next(s, e).backends, r) { NoneGo(s, e, r); }
  }

  /** The active runs after any step: what becomes of one that was active, and which of the
      others become so. */
  lemma StepActive(s: State, e: Event, id: Id)
    requires Inv(s) && Settled(s) && Enabled(s, e)
    ensures if id in s.active then Fares(s, e, Next(s, e), id) else Begins(s, e, Next(s, e), id)
  {
    if id in s.active { OldActive(s, e, id); } else { NewActive(s, e, id); }
  }
}
