/** What each locked step of the master does, exactly and in the terms of its state: to the
    backends, the queue, the active runs, the clients' channels and what goes out. */
module MasterSteps {
  import opened Options
  import opened Scheduler
  import opened Routing
  import opened Targets
  import opened Master
  import opened MasterRuns
  import opened MasterTheorems
  import opened MasterQueue
  import opened MasterTargets
  import opened MasterShapes

  // ---------------------------------------------------------------- what a step is about

  /** The queue the step works on. */
  function Waiting(s: State, e: Event): seq<Request> {
    s.pending + if e.Submit? then [e.run] else []
  }

  /** Steps that look through the whole queue. */
  ghost predicate Sifts(s: State, e: Event) {
    match e
    case Submit(run) => !CanGo(s.backends, run)
    case SnapshotTaken(_, _) => true
    case Nudge => true
    case Done(_, _) => true
    case KilledBy(_) => true
    case DomLost(_, _) => true
    case BackendLost(_, orphans) => orphans != []
    case _ => false
  }

  /** A backend other than this one lists the DOM. */
  ghost predicate ListedBeside(backends: seq<Backend>, backend: Id, dom: Id) {
    exists i, k :: Entry(backends, i, k) && backends[i].id != backend && backends[i].doms[k].id == dom
  }

  /** What the step tells the client of an active run about how the run ended. */
  ghost function Verdict(s: State, e: Event, id: Id): Option<Msg>
    requires id in s.active
  {
    match e
    case Done(d, success) => if d == id then Some(ExecutionDone(success)) else None
    case KilledBy(k) => if k == id then Some(ExecutionKilled) else None
    case DomLost(dom, _) => if s.active[id].domId == dom then Some(Disconnect) else None
    case BackendLost(b, _) => if ListedBeside(s.backends, b, s.active[id].domId) then None else Some(Disconnect)
    case _ => None
  }

  /** Who is told of a loss: exactly the runs the event lists. */
  lemma OrphansAre(s: State, e: Event, id: Id)
    requires Enabled(s, e) && (e.DomLost? || e.BackendLost?) && id in s.active
    ensures id in e.orphans <==> Verdict(s, e, id) == Some(Disconnect)
    ensures Verdict(s, e, id) in {None, Some(Disconnect)}
  {
    if e.BackendLost? { BesideIff(s.backends, e.backend, s.active[id].domId); }
  }

  lemma BesideIff(backends: seq<Backend>, backend: Id, dom: Id)
    ensures Owner(WithoutBackend(backends, backend), dom).Some? <==> ListedBeside(backends, backend, dom)
  {
    var left := WithoutBackend(backends, backend);
    OwnerIff(left, dom, backend);
    WithoutMembers(backends, backend);
    if i, k :| Entry(left, i, k) && left[i].doms[k].id == dom {
      assert left[i] in left;
      var j :| 0 <= j < |backends| && backends[j] == left[i];
      assert Entry(backends, j, k);
    }
    if i, k :| Entry(backends, i, k) && backends[i].id != backend && backends[i].doms[k].id == dom {
      assert backends[i] in left;
      var j :| 0 <= j < |left| && left[j] == backends[i];
      assert Entry(left, j, k);
    }
  }

  lemma OrphansActive(s: State, e: Event)
    requires Enabled(s, e) && (e.DomLost? || e.BackendLost?)
    ensures DistinctActive(s, e.orphans)
  {
    forall i | 0 <= i < |e.orphans| ensures e.orphans[i] in s.active { assert e.orphans[i] in e.orphans; }
  }

  // --------------------------------------------------------------------------- backends

  /** after has the elements of before at the positions at, in their order. */
  ghost predicate Picks<T>(at: seq<nat>, before: seq<T>, after: seq<T>) {
    && |at| == |after|
    && (forall i :: 0 <= i < |at| ==> at[i] < |before| && after[i] == before[at[i]])
    && forall i, j :: 0 <= i < j < |at| ==> at[i] < at[j]
  }

  lemma {:induction false} WithoutAt(backends: seq<Backend>, id: Id) returns (at: seq<nat>)
    ensures Picks(at, backends, WithoutBackend(backends, id))
    ensures forall k :: 0 <= k < |backends| ==> (k in at <==> backends[k].id != id)
  {
    if backends == [] { return []; }
    var n := |backends| - 1;
    at := WithoutAt(backends[..n], id);
    WithoutConcat(backends[..n], [backends[n]], id);
    WithoutOne(backends[n], id);
    assert backends == backends[..n] + [backends[n]];
    if backends[n].id != id { at := at + [n]; }
  }

  lemma ReconcileBackends(s: State)
    ensures Reconcile(s).backends == s.backends
  {
    ReconcileFacts(s);
  }

  lemma FinishQueue(s: State, id: Id, msg: Msg, outcome: Outcome)
    ensures Finish(s, id, msg, outcome).pending == s.pending && Finish(s, id, msg, outcome).backends == s.backends
  {
    if id in s.active { FinishIs(s, id, msg, outcome); }
  }

  lemma CompleteIs(s: State, id: Id, msg: Msg, outcome: Outcome)
    ensures CompleteRun(Forward(s, id, msg), id, outcome) == Reconcile(Finish(s, id, msg, outcome))
  {
  }

  lemma CompleteBackends(s: State, id: Id, msg: Msg, outcome: Outcome)
    ensures CompleteRun(Forward(s, id, msg), id, outcome).backends == s.backends
  {
    CompleteIs(s, id, msg, outcome);
    FinishQueue(s, id, msg, outcome);
    ReconcileBackends(Finish(s, id, msg, outcome));
  }

  lemma {:induction false} SweepBackends(s: State, orphans: seq<Id>)
    ensures Sweep(s, orphans).backends == s.backends
  {
    if orphans != [] {
      SweepBackends(s, orphans[..|orphans| - 1]);
      CompleteBackends(Sweep(s, orphans[..|orphans| - 1]), orphans[|orphans| - 1], Disconnect, Killed);
    }
  }

  lemma DomGoneBackends(s: State, dom: Id, orphans: seq<Id>)
    ensures DomGone(s, dom, orphans).backends == s.backends
  {
    SweepBackends(s, orphans);
    ReconcileBackends(Unpinned(Sweep(s, orphans), dom));
  }

  lemma SubmitBackends(s: State, run: Request)
    ensures RouteOrQueue(s, run).backends == s.backends
  {
    ReconcileBackends(s.(pending := s.pending + [run]));
  }

  lemma SameBackends(s: State, e: Event)
    requires !e.BackendLost? && !e.SnapshotTaken? && !e.Register?
    ensures Next(s, e).backends == s.backends
  {
    match e
    case Submit(run) => SubmitBackends(s, run);
    case Nudge => ReconcileBackends(s);
    case DomLost(dom, orphans) => DomGoneBackends(s, dom, orphans);
    case Done(id, success) => CompleteBackends(s, id, ExecutionDone(success), if success then Finished else Errored);
    case KilledBy(id) => CompleteBackends(s, id, ExecutionKilled, Killed);
    case _ =>
  }

  /** The backends: a lost one goes, wherever it stands; a snapshot replaces those of its
      own backend; a registration may reorder them; nothing else touches them. */
  lemma StepBackends(s: State, e: Event) returns (at: seq<nat>)
    requires Enabled(s, e)
    ensures var after := Next(s, e).backends;
            match e
            case BackendLost(b, _) => Picks(at, s.backends, after) && forall k :: 0 <= k < |s.backends| ==> (k in at <==> s.backends[k].id != b)
            case SnapshotTaken(b, doms) =>
              |after| == |s.backends|
              && forall i :: 0 <= i < |after| ==> after[i] == if s.backends[i].id == b then Backend(b, doms) else s.backends[i]
            case Register(order) => after == order && exists b :: multiset(after) == multiset(s.backends) + multiset{Backend(b, [])}
            case _ => after == s.backends
  {
    at := [];
    match e
    case BackendLost(b, orphans) =>
      at := WithoutAt(s.backends, b);
      SweepBackends(Without(s, b), orphans);
    case SnapshotTaken(b, doms) => ReconcileBackends(s.(backends := WithSnapshot(s.backends, b, doms)));
    case Register(_) =>
    case _ => SameBackends(s, e);
  }

  // ------------------------------------------------------------------------------ queue

  /** The run stays in the queue: no DOM of the snapshots it could go to; if the step looks
      through the queue, a connected DOM of its session; and the DOM it is pinned to has not
      just been lost, nor has its client left. */
  ghost predicate Remains(s: State, e: Event, backends: seq<Backend>, r: Request) {
    && !CanGo(backends, r) && (Sifts(s, e) ==> !Stranded(backends, r))
    && (e.DomLost? ==> r.domId != Some(e.dom)) && (e.ClientLeft? ==> r.id != e.id)
  }

  lemma MatchedGo(backends: seq<Backend>, r: Request)
    ensures MatchOf(backends, r).Some? <==> CanGo(backends, r)
    ensures Dead(backends, r) <==> Stranded(backends, r)
  {
    MatchExact(backends, r, r.id);
    StrandedIff(backends, r);
  }

  /** The runs that a reconciliation takes out. */
  function TakenOut(backends: seq<Backend>): Request -> bool {
    (r: Request) => MatchOf(backends, r).Some? || Dead(backends, r)
  }

  function Either(a: Request -> bool, b: Request -> bool): Request -> bool {
    (r: Request) => a(r) || b(r)
  }

  lemma KeepTwice(a: Request -> bool, b: Request -> bool, pending: seq<Request>)
    ensures Keep(b, Keep(a, pending)) == Keep(Either(a, b), pending)
  {
    DropTwice(a, b, Either(a, b), map[], pending);
  }

  lemma KeepSame(a: Request -> bool, b: Request -> bool, pending: seq<Request>)
    requires forall r :: r in pending ==> a(r) == b(r)
    ensures Keep(a, pending) == Keep(b, pending)
  {
    SameDropped(a, b, map[], pending);
  }

  lemma ReconcileKeep(s: State)
    ensures Reconcile(s).pending == Keep(TakenOut(s.backends), s.pending) && Reconcile(s).backends == s.backends
  {
    ReconcileFacts(s);
    KeepTwice(Matched(s.backends), DeadIn(s.backends), s.pending);
    KeepSame(Either(Matched(s.backends), DeadIn(s.backends)), TakenOut(s.backends), s.pending);
  }

  lemma TakenOutIff(backends: seq<Backend>, r: Request)
    ensures TakenOut(backends)(r) <==> CanGo(backends, r) || Stranded(backends, r)
  {
    MatchedGo(backends, r);
  }

  /** The queue afterwards, of a state with these backends, as a filter of the one before. */
  ghost predicate Filters(drop: Request -> bool, s: State, e: Event, t: State) {
    && t.pending == Keep(drop, Waiting(s, e))
    && forall r :: r in Waiting(s, e) ==> (drop(r) <==> !Remains(s, e, t.backends, r))
  }

  lemma FiltersSame(drop: Request -> bool, s: State, e: Event, t: State, u: State)
    requires Filters(drop, s, e, t) && t.pending == u.pending && t.backends == u.backends
    ensures Filters(drop, s, e, u)
  {
  }

  /** Steps that leave the queue as it is. */
  lemma QuietQueue(s: State, e: Event, t: State) returns (drop: Request -> bool)
    requires Settled(t) && t.pending == s.pending && !Sifts(s, e) && !e.Submit? && !e.ClientLeft? && !e.DomLost?
    ensures Filters(drop, s, e, t)
  {
    drop := Nobody();
    assert Waiting(s, e) == s.pending;
    KeepAll(drop, s.pending);
    forall r | r in s.pending ensures Remains(s, e, t.backends, r) { MatchedGo(t.backends, r); }
  }

  /** Steps that reconcile the queue worked on. */
  lemma SiftedQueue(s: State, e: Event, u: State) returns (drop: Request -> bool)
    requires Sifts(s, e) && !e.DomLost? && u.pending == Waiting(s, e)
    ensures Filters(drop, s, e, Reconcile(u))
  {
    drop := TakenOut(u.backends);
    ReconcileKeep(u);
    forall r | r in u.pending ensures drop(r) <==> !Remains(s, e, u.backends, r) { TakenOutIff(u.backends, r); }
  }

  lemma RoutedQueue(s: State, run: Request) returns (drop: Request -> bool)
    requires Settled(s) && MatchOf(s.backends, run).Some?
    ensures Filters(drop, s, Submit(run), RouteOrQueue(s, run))
  {
    drop := Matched(s.backends);
    KeepAppend(drop, s.pending, [run]);
    KeepAll(drop, s.pending);
    assert Keep(drop, [run]) == [] && s.pending + [] == s.pending;
    forall r | r in Waiting(s, Submit(run)) ensures drop(r) <==> !Remains(s, Submit(run), s.backends, r) {
      MatchedGo(s.backends, r);
      MatchedGo(s.backends, run);
    }
  }

  lemma SubmitQueue(s: State, run: Request) returns (drop: Request -> bool)
    requires Settled(s)
    ensures Filters(drop, s, Submit(run), RouteOrQueue(s, run))
  {
    if MatchOf(s.backends, run).Some? {
      drop := RoutedQueue(s, run);
    } else {
      MatchedGo(s.backends, run);
      drop := SiftedQueue(s, Submit(run), s.(pending := s.pending + [run]));
    }
  }

  lemma LeftQueue(s: State, id: Id) returns (drop: Request -> bool)
    requires Settled(s)
    ensures Filters(drop, s, ClientLeft(id), ClientGone(s, id))
  {
    drop := Named(id);
    assert Waiting(s, ClientLeft(id)) == s.pending;
    forall r | r in s.pending ensures drop(r) <==> !Remains(s, ClientLeft(id), s.backends, r) { MatchedGo(s.backends, r); }
  }

  lemma SweptQueue(s: State, orphans: seq<Id>)
    requires DistinctActive(s, orphans) && Settled(s)
    ensures DistinctActive(Reconcile(s), orphans) && Reconcile(s).active == s.active
    ensures FinishAll(Reconcile(s), orphans).pending == Reconcile(s).pending
    ensures FinishAll(Reconcile(s), orphans).backends == Reconcile(s).backends == s.backends
  {
    SettledReconcile(s);
    FinishAllState(Reconcile(s), orphans);
    ReconcileBackends(s);
  }

  lemma OrphanedQueue(s: State, backend: Id, orphans: seq<Id>) returns (drop: Request -> bool)
    requires QueueOk(s) && ActiveOk(s) && Settled(s) && DistinctActive(s, orphans) && orphans != []
    ensures Filters(drop, s, BackendLost(backend, orphans), BackendGone(s, backend, orphans))
  {
    BackendShape(s, backend, orphans);
    WithoutOk(s, backend);
    SweptQueue(Without(s, backend), orphans);
    assert Waiting(s, BackendLost(backend, orphans)) == s.pending;
    drop := SiftedQueue(s, BackendLost(backend, orphans), Without(s, backend));
    FiltersSame(drop, s, BackendLost(backend, orphans), Reconcile(Without(s, backend)), BackendGone(s, backend, orphans));
  }

  lemma LostBackendQueue(s: State, backend: Id, orphans: seq<Id>) returns (drop: Request -> bool)
    requires QueueOk(s) && ActiveOk(s) && Settled(s) && Enabled(s, BackendLost(backend, orphans))
    ensures Filters(drop, s, BackendLost(backend, orphans), BackendGone(s, backend, orphans))
  {
    if orphans == [] {
      WithoutOk(s, backend);
      drop := QuietQueue(s, BackendLost(backend, orphans), Without(s, backend));
    } else {
      OrphansActive(s, BackendLost(backend, orphans));
      drop := OrphanedQueue(s, backend, orphans);
    }
  }

  lemma DomQueueRemains(s: State, dom: Id, orphans: seq<Id>, drop: Request -> bool)
    requires forall r :: drop(r) <==> PinnedTo(dom)(r) || TakenOut(s.backends)(r)
    ensures var e := DomLost(dom, orphans);
            forall r :: r in Waiting(s, e) ==> (drop(r) <==> !Remains(s, e, s.backends, r))
  {
    var e := DomLost(dom, orphans);
    forall r | r in Waiting(s, e) ensures drop(r) <==> !Remains(s, e, s.backends, r) { TakenOutIff(s.backends, r); }
  }

  lemma LostDomQueue(s: State, dom: Id, orphans: seq<Id>) returns (drop: Request -> bool)
    requires QueueOk(s) && ActiveOk(s) && Settled(s) && Enabled(s, DomLost(dom, orphans))
    ensures Filters(drop, s, DomLost(dom, orphans), DomGone(s, dom, orphans))
  {
    var e := DomLost(dom, orphans);
    assert Waiting(s, e) == s.pending;
    if orphans == [] {
      drop := Either(PinnedTo(dom), TakenOut(s.backends));
      UnsweptDom(s, dom);
      ReconcileKeep(Unpinned(s, dom));
      KeepTwice(PinnedTo(dom), TakenOut(s.backends), s.pending);
    } else {
      drop := Either(TakenOut(s.backends), PinnedTo(dom));
      SweptDom(s, dom, orphans);
      OrphansActive(s, e);
      SweptQueue(s, orphans);
      ReconcileKeep(s);
      KeepTwice(TakenOut(s.backends), PinnedTo(dom), s.pending);
    }
    DomQueueRemains(s, dom, orphans, drop);
  }

  lemma QueueFilter(s: State, e: Event) returns (drop: Request -> bool)
    requires QueueOk(s) && ActiveOk(s) && Settled(s) && Enabled(s, e)
    ensures Filters(drop, s, e, Next(s, e))
  {
    match e
    case Submit(run) => drop := SubmitQueue(s, run);
    case SnapshotTaken(backend, doms) => drop := SnapshotQueue(s, backend, doms);
    case Nudge => drop := NudgeQueue(s);
    case Done(id, success) => drop := CompletedQueue(s, e, id, ExecutionDone(success), if success then Finished else Errored);
    case KilledBy(id) => drop := CompletedQueue(s, e, id, ExecutionKilled, Killed);
    case BackendLost(backend, orphans) => drop := LostBackendQueue(s, backend, orphans);
    case DomLost(dom, orphans) => drop := LostDomQueue(s, dom, orphans);
    case ClientLeft(id) => drop := LeftQueue(s, id);
    case _ => drop := UntouchedQueue(s, e);
  }

  lemma UntouchedQueue(s: State, e: Event) returns (drop: Request -> bool)
    requires Settled(s) && Enabled(s, e) && (e.Register? || e.Output? || e.FilesDone? || e.ClientSays?)
    ensures Filters(drop, s, e, Next(s, e))
  {
    StepSettled(s, e);
    drop := QuietQueue(s, e, Next(s, e));
  }

  lemma SnapshotQueue(s: State, backend: Id, doms: seq<Dom>) returns (drop: Request -> bool)
    ensures Filters(drop, s, SnapshotTaken(backend, doms), Snapshot(s, backend, doms))
  {
    assert Waiting(s, SnapshotTaken(backend, doms)) == s.pending;
    drop := SiftedQueue(s, SnapshotTaken(backend, doms), s.(backends := WithSnapshot(s.backends, backend, doms)));
  }

  lemma NudgeQueue(s: State) returns (drop: Request -> bool)
    ensures Filters(drop, s, Nudge, Reconcile(s))
  {
    assert Waiting(s, Nudge) == s.pending;
    drop := SiftedQueue(s, Nudge, s);
  }

  lemma CompletedQueue(s: State, e: Event, id: Id, msg: Msg, outcome: Outcome) returns (drop: Request -> bool)
    requires Sifts(s, e) && (e.Done? || e.KilledBy?)
    ensures Filters(drop, s, e, CompleteRun(Forward(s, id, msg), id, outcome))
  {
    assert Waiting(s, e) == s.pending;
    FinishQueue(s, id, msg, outcome);
    CompleteIs(s, id, msg, outcome);
    drop := SiftedQueue(s, e, Finish(s, id, msg, outcome));
  }

  /** The queue: of the runs worked on exactly those that remain, in their order. */
  lemma StepQueue(s: State, e: Event) returns (at: seq<nat>)
    requires Inv(s) && Settled(s) && Enabled(s, e)
    ensures Picks(at, Waiting(s, e), Next(s, e).pending)
    ensures forall k :: 0 <= k < |Waiting(s, e)| ==> (k in at <==> Remains(s, e, Next(s, e).backends, Waiting(s, e)[k]))
  {
    var drop := QueueFilter(s, e);
    at := KeepExact(drop, Waiting(s, e));
  }
}
