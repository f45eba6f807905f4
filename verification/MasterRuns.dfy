/** What every run of the master keeps: any sequence of its locked steps, from start-up. */
module MasterRuns {
  import opened Options
  import opened Scheduler
  import opened Targets
  import opened Master

  predicate Quiet(msg: Msg) {
    msg.Rpc? || msg.File?
  }

  predicate Terminal(msg: Msg) {
    msg.ExecutionDone? || msg.ExecutionKilled? || msg.Disconnect?
  }

  /** The run's id is not that of a live run; its channel is new. */
  ghost predicate Fresh(s: State, run: Request) {
    && run.id !in s.active && (forall i :: 0 <= i < |s.pending| ==> s.pending[i].id != run.id && s.pending[i].handle != run.handle)
    && Log(s.logs, run.handle) == [] && forall id :: id in s.active ==> s.active[id].handle != run.handle
  }

  /** A registered backend's snapshot is empty at first; the map may be reordered. */
  ghost predicate Registers(before: seq<Backend>, after: seq<Backend>) {
    exists id :: multiset(after) == multiset(before) + multiset{Backend(id, [])}
  }

  ghost predicate Enabled(s: State, e: Event) {
    match e
    case Submit(run) => Fresh(s, run)
    case Register(order) => Registers(s.backends, order)
    case BackendLost(backend, orphans) => ListsOrphans(s.active, NoOwner(WithoutBackend(s.backends, backend)), orphans)
    case DomLost(dom, orphans) => ListsOrphans(s.active, OnDom(dom), orphans)
    case Output(_, msg) => Quiet(msg)
    case ClientSays(_, what) => what.Answer? || what.KillScript?
    case _ => true
  }

  // ----------------------------------------------------------------- channels and ids

  predicate AllQuiet(log: seq<Msg>) {
    forall i :: 0 <= i < |log| ==> Quiet(log[i])
  }

  predicate NoComplete(log: seq<Msg>) {
    forall i :: 0 <= i < |log| ==> log[i] != Complete
  }

  predicate Ended(log: seq<Msg>) {
    log != [] && log[|log| - 1] == Complete
  }

  /** Output, then one word on how it ended, then Complete. */
  predicate Proper(log: seq<Msg>) {
    |log| >= 2 && Ended(log) && Terminal(log[|log| - 2]) && AllQuiet(log[..|log| - 2])
  }

  /** Complete without a word on how it ended. */
  predicate Bare(log: seq<Msg>) {
    Ended(log) && AllQuiet(log[..|log| - 1])
  }

  /** What a channel can look like while its run is live, and after. */
  predicate LiveLog(h: Handle, log: seq<Msg>) {
    if h.profiled then NoComplete(log) else AllQuiet(log)
  }

  predicate ChannelOk(h: Handle, log: seq<Msg>) {
    LiveLog(h, log) || (if h.profiled then Ended(log) && NoComplete(log[..|log| - 1]) else Proper(log) || Bare(log))
  }

  ghost predicate QueueOk(s: State) {
    && (forall i, j :: 0 <= i < j < |s.pending| ==> s.pending[i].id != s.pending[j].id && s.pending[i].handle != s.pending[j].handle)
    && (forall i :: 0 <= i < |s.pending| ==> s.pending[i].id !in s.active && Log(s.logs, s.pending[i].handle) == [])
    && (forall i, id :: 0 <= i < |s.pending| && id in s.active ==> s.active[id].handle != s.pending[i].handle)
  }

  ghost predicate ActiveOk(s: State) {
    && (forall id, jd :: id in s.active && jd in s.active && s.active[id].handle == s.active[jd].handle ==> id == jd)
    && (forall id :: id in s.active ==> LiveLog(s.active[id].handle, Log(s.logs, s.active[id].handle)))
  }

  ghost predicate LogsOk(s: State) {
    forall h :: ChannelOk(h, Log(s.logs, h))
  }

  ghost predicate Inv(s: State) {
    QueueOk(s) && ActiveOk(s) && LogsOk(s)
  }

  // ------------------------------------------------------------------- reconciliation

  /** What reconciling does to live runs and channels. */
  lemma {:induction false} ReconcileFacts(s: State)
    ensures var t := Reconcile(s);
            && t.backends == s.backends
            && t.active == DispatchFrom(s, s.pending, 0).active
            && t.pending == Keep(DeadIn(s.backends), Keep(Matched(s.backends), s.pending))
            && t.logs == KillDropped(DeadIn(s.backends), s.logs, Keep(Matched(s.backends), s.pending))
  {
    DispatchFromKeeps(s, s.pending, 0);
  }

  /** Who is in the queue afterwards. */
  lemma ReconcileQueue(s: State)
    ensures forall r :: r in Reconcile(s).pending <==>
              r in s.pending && MatchOf(s.backends, r).None? && !Dead(s.backends, r)
  {
    ReconcileFacts(s);
    KeepMembers(Matched(s.backends), s.pending);
    KeepMembers(DeadIn(s.backends), Keep(Matched(s.backends), s.pending));
  }

  /** A filter of a duplicate-free queue is one. */
  ghost predicate DistinctRuns(pending: seq<Request>) {
    forall i, j :: 0 <= i < j < |pending| ==> pending[i].id != pending[j].id && pending[i].handle != pending[j].handle
  }

  lemma KeepDistinct(drop: Request -> bool, pending: seq<Request>)
    requires DistinctRuns(pending)
    ensures DistinctRuns(Keep(drop, pending))
  {
    var at := KeepExact(drop, pending);
  }

  /** Which of the queue's runs a reconciliation drops, and what their clients see. */
  lemma ReconcileLogs(s: State, h: Handle)
    requires DistinctRuns(s.pending)
    ensures Log(Reconcile(s).logs, h) == Log(s.logs, h) +
            if exists r :: r in s.pending && MatchOf(s.backends, r).None? && Dead(s.backends, r) && r.handle == h then KILLED else []
  {
    ReconcileFacts(s);
    KeepDistinct(Matched(s.backends), s.pending);
    KeepMembers(Matched(s.backends), s.pending);
    DropLog(DeadIn(s.backends), s.logs, Keep(Matched(s.backends), s.pending), h);
  }

  /** Which runs are active afterwards. */
  lemma ReconcileActive(s: State, id: Id) returns (k: Option<nat>)
    requires DistinctRuns(s.pending)
    ensures k.Some? ==> k.value < |s.pending| && s.pending[k.value].id == id && MatchOf(s.backends, s.pending[k.value]).Some?
                        && id in Reconcile(s).active
                        && Reconcile(s).active[id] == Run(MatchOf(s.backends, s.pending[k.value]).value, s.pending[k.value].handle, Running)
    ensures k.None? ==> (id in Reconcile(s).active <==> id in s.active)
                        && (id in s.active ==> Reconcile(s).active[id] == s.active[id])
                        && forall i :: 0 <= i < |s.pending| && s.pending[i].id == id ==> MatchOf(s.backends, s.pending[i]).None?
  {
    ReconcileFacts(s);
    k := DispatchFromActive(s, s.pending, 0, id);
    assert Lookup(Reconcile(s).active, id) == Lookup(DispatchFrom(s, s.pending, 0).active, id);
  }

  // ------------------------------------------------------------ what one change keeps

  /** How the channel of a live run is closed. */
  predicate ClosedLog(h: Handle, log: seq<Msg>) {
    if h.profiled then Ended(log) && NoComplete(log[..|log| - 1]) else Proper(log)
  }

  /** A channel stands still, or was live and has grown, and is live or properly closed. */
  predicate Moved(h: Handle, before: seq<Msg>, after: seq<Msg>) {
    after == before || (LiveLog(h, before) && before <= after && (LiveLog(h, after) || ClosedLog(h, after)))
  }

  ghost predicate Moves(before: Logs, after: Logs) {
    forall h :: Moved(h, Log(before, h), Log(after, h))
  }

  lemma EndedNotLive(h: Handle, log: seq<Msg>)
    requires Ended(log)
    ensures !LiveLog(h, log)
  {
    assert log[|log| - 1] == Complete;
  }

  lemma ClosedIsEnded(h: Handle, log: seq<Msg>)
    requires ClosedLog(h, log)
    ensures Ended(log) && !LiveLog(h, log)
  {
    EndedNotLive(h, log);
  }

  lemma MovesTransitive(a: Logs, b: Logs, c: Logs)
    requires Moves(a, b) && Moves(b, c)
    ensures Moves(a, c)
  {
    forall h ensures Moved(h, Log(a, h), Log(c, h)) {
      assert Moved(h, Log(a, h), Log(b, h)) && Moved(h, Log(b, h), Log(c, h));
      if ClosedLog(h, Log(b, h)) { ClosedIsEnded(h, Log(b, h)); }
    }
  }

  /** An active run stays where it is, or its channel has ended. */
  ghost predicate Follows(s: State, t: State) {
    forall id :: id in s.active ==>
      Stays(s.active[id], t, id) || Ended(Log(t.logs, s.active[id].handle))
  }

  predicate Stays(run: Run, t: State, id: Id) {
    id in t.active && t.active[id].domId == run.domId && t.active[id].handle == run.handle
  }

  /** A queued run is queued, active, or its channel has ended. */
  ghost predicate Accounted(r: Request, t: State) {
    r in t.pending || (r.id in t.active && t.active[r.id].handle == r.handle) || Ended(Log(t.logs, r.handle))
  }

  /** No queued run is lost, except those dropped on purpose. */
  ghost predicate Conserves(dropped: Request -> bool, s: State, t: State) {
    forall r :: r in s.pending && !dropped(r) ==> Accounted(r, t)
  }

  /** All that one change, or many, keep. */
  ghost predicate Keeps(dropped: Request -> bool, s: State, t: State) {
    QueueOk(t) && ActiveOk(t) && Moves(s.logs, t.logs) && Follows(s, t) && Conserves(dropped, s, t)
  }

  lemma EndedStays(a: Logs, b: Logs, h: Handle)
    requires Moves(a, b) && Ended(Log(a, h))
    ensures Log(b, h) == Log(a, h)
  {
    assert Moved(h, Log(a, h), Log(b, h));
    EndedNotLive(h, Log(a, h));
  }

  lemma FollowsTransitive(s: State, t: State, u: State)
    requires Follows(s, t) && Follows(t, u) && Moves(t.logs, u.logs)
    ensures Follows(s, u)
  {
    forall id | id in s.active ensures Stays(s.active[id], u, id) || Ended(Log(u.logs, s.active[id].handle)) {
      if !Stays(s.active[id], t, id) { EndedStays(t.logs, u.logs, s.active[id].handle); }
    }
  }

  lemma ConservesTransitive(dropped: Request -> bool, s: State, t: State, u: State)
    requires Conserves(dropped, s, t) && Conserves(dropped, t, u) && Follows(t, u) && Moves(t.logs, u.logs)
    ensures Conserves(dropped, s, u)
  {
    forall r | r in s.pending && !dropped(r) ensures Accounted(r, u) {
      assert Accounted(r, t);
      if r in t.pending {
        assert Accounted(r, u);
      } else if Ended(Log(t.logs, r.handle)) {
        EndedStays(t.logs, u.logs, r.handle);
      }
    }
  }

  lemma KeepsTransitive(dropped: Request -> bool, s: State, t: State, u: State)
    requires Keeps(dropped, s, t) && Keeps(dropped, t, u)
    ensures Keeps(dropped, s, u)
  {
    MovesTransitive(s.logs, t.logs, u.logs);
    FollowsTransitive(s, t, u);
    ConservesTransitive(dropped, s, t, u);
  }

  // -------------------------------------------------------------- reconciling keeps it

  ghost predicate Dying(s: State, r: Request) {
    r in s.pending && MatchOf(s.backends, r).None? && Dead(s.backends, r)
  }

  lemma QueueDistinct(s: State)
    requires QueueOk(s)
    ensures DistinctRuns(s.pending)
  {
  }

  /** Runs of the queue that share id or channel are the same run. */
  lemma SameRun(s: State, r: Request, q: Request)
    requires QueueOk(s) && r in s.pending && q in s.pending && (r.id == q.id || r.handle == q.handle)
    ensures r == q
  {
    var i :| 0 <= i < |s.pending| && s.pending[i] == r;
    var j :| 0 <= j < |s.pending| && s.pending[j] == q;
    assert !(i < j) && !(j < i);
  }

  /** A run killed in the queue: nothing was said before, and this is proper. */
  lemma KilledQueued(h: Handle)
    ensures Moved(h, [], KILLED) && ClosedLog(h, KILLED) && Proper(KILLED)
  {
  }

  lemma DyingLog(s: State, r: Request)
    requires QueueOk(s) && Dying(s, r)
    ensures Log(s.logs, r.handle) == [] && Log(Reconcile(s).logs, r.handle) == KILLED
  {
    InQueue(s, r);
    ReconcileLogs(s, r.handle);
  }

  lemma ReconcileMoved(s: State, h: Handle)
    requires QueueOk(s)
    ensures Moved(h, Log(s.logs, h), Log(Reconcile(s).logs, h))
  {
    if r :| Dying(s, r) && r.handle == h {
      DyingLog(s, r);
      KilledQueued(h);
    } else {
      ReconcileLeaves(s, h);
    }
  }

  lemma ReconcileMoves(s: State)
    requires QueueOk(s)
    ensures Moves(s.logs, Reconcile(s).logs)
  {
    forall h ensures Moved(h, Log(s.logs, h), Log(Reconcile(s).logs, h)) { ReconcileMoved(s, h); }
  }

  /** A live run's channel is left alone unless the run is dying. */
  lemma ReconcileLeaves(s: State, h: Handle)
    requires QueueOk(s) && !exists r :: Dying(s, r) && r.handle == h
    ensures Log(Reconcile(s).logs, h) == Log(s.logs, h)
  {
    ReconcileLogs(s, h);
  }

  /** Where an active run comes from. */
  lemma ReconcileActiveFrom(s: State, id: Id)
    requires QueueOk(s) && id in Reconcile(s).active
    ensures (id in s.active && Reconcile(s).active[id] == s.active[id])
            || exists r :: r in s.pending && r.id == id && MatchOf(s.backends, r).Some?
                           && Reconcile(s).active[id] == Run(MatchOf(s.backends, r).value, r.handle, Running)
  {
    QueueDistinct(s);
    var k := ReconcileActive(s, id);
    if k.Some? { assert s.pending[k.value] in s.pending; }
  }

  lemma ReconcileQueueOk(s: State)
    requires QueueOk(s)
    ensures QueueOk(Reconcile(s))
  {
    var t := Reconcile(s);
    ReconcileFacts(s);
    KeepDistinct(Matched(s.backends), s.pending);
    KeepDistinct(DeadIn(s.backends), Keep(Matched(s.backends), s.pending));
    ReconcileQueue(s);
    forall i | 0 <= i < |t.pending| ensures t.pending[i].id !in t.active && Log(t.logs, t.pending[i].handle) == [] {
      var r := t.pending[i];
      assert r in t.pending;
      QueuedStaysOut(s, r);
    }
    forall i, id | 0 <= i < |t.pending| && id in t.active ensures t.active[id].handle != t.pending[i].handle {
      var r := t.pending[i];
      assert r in t.pending;
      ReconcileActiveFrom(s, id);
      InQueue(s, r);
      if q :| q in s.pending && q.id == id && MatchOf(s.backends, q).Some? && t.active[id].handle == q.handle == r.handle {
        SameRun(s, r, q);
      }
    }
  }

  /** What the queue's invariant says of one queued run. */
  lemma InQueue(s: State, r: Request)
    requires QueueOk(s) && r in s.pending
    ensures r.id !in s.active && Log(s.logs, r.handle) == [] && forall id :: id in s.active ==> s.active[id].handle != r.handle
  {
    var i :| 0 <= i < |s.pending| && s.pending[i] == r;
  }

  lemma QueuedStaysOut(s: State, r: Request)
    requires QueueOk(s) && r in Reconcile(s).pending
    ensures r.id !in Reconcile(s).active && Log(Reconcile(s).logs, r.handle) == []
  {
    ReconcileQueue(s);
    InQueue(s, r);
    if r.id in Reconcile(s).active {
      ReconcileActiveFrom(s, r.id);
      var q :| q in s.pending && q.id == r.id && MatchOf(s.backends, q).Some?;
      SameRun(s, r, q);
    }
    if q :| Dying(s, q) && q.handle == r.handle { SameRun(s, r, q); }
    ReconcileLeaves(s, r.handle);
  }

  /** The channel an active run got before or gets now. */
  lemma ActiveChannel(s: State, id: Id)
    requires QueueOk(s) && ActiveOk(s) && id in Reconcile(s).active
    ensures var h := Reconcile(s).active[id].handle; LiveLog(h, Log(Reconcile(s).logs, h))
  {
    var h := Reconcile(s).active[id].handle;
    ReconcileActiveFrom(s, id);
    if q :| Dying(s, q) && q.handle == h {
      InQueue(s, q);
      var r :| r in s.pending && MatchOf(s.backends, r).Some? && h == r.handle;
      SameRun(s, q, r);
    }
    ReconcileLeaves(s, h);
    if id !in s.active || s.active[id].handle != h {
      var r :| r in s.pending && h == r.handle;
      InQueue(s, r);
    }
  }

  lemma ReconcileActiveOk(s: State)
    requires QueueOk(s) && ActiveOk(s)
    ensures ActiveOk(Reconcile(s))
  {
    var t := Reconcile(s);
    forall id | id in t.active ensures LiveLog(t.active[id].handle, Log(t.logs, t.active[id].handle)) {
      ActiveChannel(s, id);
    }
    forall id, jd | id in t.active && jd in t.active && t.active[id].handle == t.active[jd].handle ensures id == jd {
      SameChannel(s, id, jd);
    }
  }

  lemma SameChannel(s: State, id: Id, jd: Id)
    requires QueueOk(s) && ActiveOk(s) && id in Reconcile(s).active && jd in Reconcile(s).active
    requires Reconcile(s).active[id].handle == Reconcile(s).active[jd].handle
    ensures id == jd
  {
    var h := Reconcile(s).active[id].handle;
    ReconcileActiveFrom(s, id);
    ReconcileActiveFrom(s, jd);
    if r :| r in s.pending && r.id == id && r.handle == h {
      InQueue(s, r);
      if jd !in s.active || s.active[jd].handle != h {
        var q :| q in s.pending && q.id == jd && q.handle == h;
        SameRun(s, r, q);
      }
    } else if q :| q in s.pending && q.id == jd && q.handle == h {
      InQueue(s, q);
    }
  }

  lemma ReconcileFollows(s: State)
    requires QueueOk(s)
    ensures Follows(s, Reconcile(s))
  {
    forall id | id in s.active ensures Stays(s.active[id], Reconcile(s), id) {
      var k := ReconcileActive(s, id);
    }
  }

  lemma ReconcileConserves(dropped: Request -> bool, s: State)
    requires QueueOk(s)
    ensures Conserves(dropped, s, Reconcile(s))
  {
    forall r | r in s.pending ensures Accounted(r, Reconcile(s)) {
      ReconcileQueue(s);
      if MatchOf(s.backends, r).Some? {
        var i :| 0 <= i < |s.pending| && s.pending[i] == r;
        var k := ReconcileActive(s, r.id);
        SameRun(s, r, s.pending[k.value]);
      } else if Dead(s.backends, r) {
        assert Dying(s, r);
        ReconcileLogs(s, r.handle);
      }
    }
  }

  lemma ReconcileKeeps(dropped: Request -> bool, s: State)
    requires QueueOk(s) && ActiveOk(s)
    ensures Keeps(dropped, s, Reconcile(s))
  {
    ReconcileQueueOk(s);
    ReconcileActiveOk(s);
    ReconcileMoves(s);
    ReconcileFollows(s);
    ReconcileConserves(dropped, s);
  }

  // ------------------------------------------------------------ the other steps keep it

  function Nobody(): Request -> bool {
    (run: Request) => false
  }

  /** t differs from s at most in the active run id, which has stayed or ended. */
  ghost predicate OneRun(s: State, t: State, id: Id)
    requires id in s.active
  {
    var h := s.active[id].handle;
    && t.pending == s.pending
    && (forall jd :: jd != id ==> (jd in t.active <==> jd in s.active) && (jd in s.active ==> t.active[jd] == s.active[jd]))
    && (forall g :: g != h ==> Log(t.logs, g) == Log(s.logs, g))
    && if id in t.active then Stays(s.active[id], t, id) && LiveLog(h, Log(t.logs, h)) else Ended(Log(t.logs, h))
  }

  lemma OneRunQueueOk(s: State, t: State, id: Id)
    requires QueueOk(s) && id in s.active && OneRun(s, t, id)
    ensures QueueOk(t)
  {
    forall i | 0 <= i < |t.pending|
      ensures t.pending[i].id !in t.active && Log(t.logs, t.pending[i].handle) == []
      ensures forall jd :: jd in t.active ==> t.active[jd].handle != t.pending[i].handle
    {
      assert t.pending[i] in s.pending;
      InQueue(s, t.pending[i]);
      forall jd | jd in t.active ensures jd in s.active && t.active[jd].handle == s.active[jd].handle {
        assert jd != id || Stays(s.active[id], t, id);
      }
    }
  }

  lemma OneRunActiveOk(s: State, t: State, id: Id)
    requires ActiveOk(s) && id in s.active && OneRun(s, t, id)
    ensures ActiveOk(t)
  {
    forall jd | jd in t.active
      ensures jd in s.active && t.active[jd].handle == s.active[jd].handle
      ensures LiveLog(t.active[jd].handle, Log(t.logs, t.active[jd].handle))
    {
      if jd != id { assert s.active[jd].handle != s.active[id].handle; }
    }
  }

  lemma OneRunState(dropped: Request -> bool, s: State, t: State, id: Id)
    requires QueueOk(s) && ActiveOk(s) && id in s.active && OneRun(s, t, id)
    ensures QueueOk(t) && ActiveOk(t) && Follows(s, t) && Conserves(dropped, s, t)
  {
    OneRunQueueOk(s, t, id);
    OneRunActiveOk(s, t, id);
  }

  lemma OneRunKeeps(dropped: Request -> bool, s: State, t: State, id: Id)
    requires QueueOk(s) && ActiveOk(s) && id in s.active && OneRun(s, t, id)
    requires Moved(s.active[id].handle, Log(s.logs, s.active[id].handle), Log(t.logs, s.active[id].handle))
    ensures Keeps(dropped, s, t)
  {
    OneRunState(dropped, s, t, id);
    forall h ensures Moved(h, Log(s.logs, h), Log(t.logs, h)) {
      if h != s.active[id].handle { assert Log(t.logs, h) == Log(s.logs, h); }
    }
  }

  lemma SameKeeps(dropped: Request -> bool, s: State, t: State)
    requires QueueOk(s) && ActiveOk(s) && t.pending == s.pending && t.active == s.active && t.logs == s.logs
    ensures Keeps(dropped, s, t)
  {
  }

  /** One message told, then the run retired. */
  function Finish(s: State, id: Id, msg: Msg, outcome: Outcome): State {
    Retire(Forward(s, id, msg), id, outcome)
  }

  lemma EndsProperly(h: Handle, log: seq<Msg>, msg: Msg)
    requires LiveLog(h, log) && Terminal(msg)
    ensures h.profiled ==> Moved(h, log, log + [msg]) && LiveLog(h, log + [msg])
    ensures !h.profiled ==> Moved(h, log, log + [msg] + [Complete]) && Proper(log + [msg] + [Complete])
  {
    var end := log + [msg] + [Complete];
    assert end[..|end| - 2] == log;
  }

  lemma FinishKeeps(dropped: Request -> bool, s: State, id: Id, msg: Msg, outcome: Outcome)
    requires QueueOk(s) && ActiveOk(s) && Terminal(msg)
    ensures Keeps(dropped, s, Finish(s, id, msg, outcome))
    ensures id in s.active ==> var h := s.active[id].handle;
              Log(Finish(s, id, msg, outcome).logs, h) == Log(s.logs, h) + [msg] + if h.profiled then [] else [Complete]
  {
    var t := Finish(s, id, msg, outcome);
    if id in s.active {
      var h := s.active[id].handle;
      EndsProperly(h, Log(s.logs, h), msg);
      assert Log(s.logs, h) + [msg] + [] == Log(s.logs, h) + [msg];
      OneRunKeeps(dropped, s, t, id);
    } else {
      SameKeeps(dropped, s, t);
    }
  }

  lemma FinishReconcileKeeps(dropped: Request -> bool, s: State, id: Id, msg: Msg, outcome: Outcome)
    requires QueueOk(s) && ActiveOk(s) && Terminal(msg)
    ensures Keeps(dropped, s, CompleteRun(Forward(s, id, msg), id, outcome))
  {
    FinishKeeps(dropped, s, id, msg, outcome);
    ReconcileKeeps(dropped, Finish(s, id, msg, outcome));
    KeepsTransitive(dropped, s, Finish(s, id, msg, outcome), Reconcile(Finish(s, id, msg, outcome)));
  }

  lemma {:induction false} SweepKeeps(dropped: Request -> bool, s: State, orphans: seq<Id>)
    requires QueueOk(s) && ActiveOk(s)
    ensures Keeps(dropped, s, Sweep(s, orphans))
  {
    if orphans == [] {
      SameKeeps(dropped, s, s);
    } else {
      var t := Sweep(s, orphans[..|orphans| - 1]);
      SweepKeeps(dropped, s, orphans[..|orphans| - 1]);
      FinishReconcileKeeps(dropped, t, orphans[|orphans| - 1], Disconnect, Killed);
      KeepsTransitive(dropped, s, t, Sweep(s, orphans));
    }
  }

  /** Runs taken out of the queue on purpose. */
  lemma DropKeeps(dropped: Request -> bool, s: State)
    requires QueueOk(s) && ActiveOk(s)
    ensures Keeps(dropped, s, s.(pending := Keep(dropped, s.pending)))
  {
    var t := s.(pending := Keep(dropped, s.pending));
    KeepDistinct(dropped, s.pending);
    KeepMembers(dropped, s.pending);
    forall i | 0 <= i < |t.pending|
      ensures t.pending[i].id !in t.active && Log(t.logs, t.pending[i].handle) == []
      ensures forall jd :: jd in t.active ==> t.active[jd].handle != t.pending[i].handle
    {
      assert t.pending[i] in t.pending;
      InQueue(s, t.pending[i]);
    }
  }

  lemma DomGoneKeeps(s: State, dom: Id, orphans: seq<Id>)
    requires QueueOk(s) && ActiveOk(s)
    ensures Keeps(PinnedTo(dom), s, DomGone(s, dom, orphans))
  {
    var t := Sweep(s, orphans);
    var u := t.(pending := Keep(PinnedTo(dom), t.pending));
    SweepKeeps(PinnedTo(dom), s, orphans);
    DropKeeps(PinnedTo(dom), t);
    KeepsTransitive(PinnedTo(dom), s, t, u);
    ReconcileKeeps(PinnedTo(dom), u);
    KeepsTransitive(PinnedTo(dom), s, u, Reconcile(u));
  }

  lemma BackendGoneKeeps(dropped: Request -> bool, s: State, backend: Id, orphans: seq<Id>)
    requires QueueOk(s) && ActiveOk(s)
    ensures Keeps(dropped, s, BackendGone(s, backend, orphans))
  {
    var t := s.(backends := WithoutBackend(s.backends, backend));
    SameKeeps(dropped, s, t);
    SweepKeeps(dropped, t, orphans);
    KeepsTransitive(dropped, s, t, Sweep(t, orphans));
  }

  lemma SnapshotKeeps(dropped: Request -> bool, s: State, backend: Id, doms: seq<Dom>)
    requires QueueOk(s) && ActiveOk(s)
    ensures Keeps(dropped, s, Snapshot(s, backend, doms))
  {
    var t := s.(backends := WithSnapshot(s.backends, backend, doms));
    SameKeeps(dropped, s, t);
    ReconcileKeeps(dropped, t);
    KeepsTransitive(dropped, s, t, Reconcile(t));
  }

  /** A dispatched run takes a new id and a new channel into the active map. */
  lemma DispatchQueueOk(s: State, dom: Id, run: Request)
    requires QueueOk(s) && Fresh(s, run)
    ensures QueueOk(Dispatch(s, dom, run))
  {
    var t := Dispatch(s, dom, run);
    forall i | 0 <= i < |t.pending|
      ensures t.pending[i].id !in t.active && Log(t.logs, t.pending[i].handle) == []
      ensures forall jd :: jd in t.active ==> t.active[jd].handle != t.pending[i].handle
    {
      assert t.pending[i] in s.pending;
      InQueue(s, t.pending[i]);
    }
  }

  lemma DispatchActiveOk(s: State, dom: Id, run: Request)
    requires ActiveOk(s) && Fresh(s, run)
    ensures ActiveOk(Dispatch(s, dom, run))
  {
    var t := Dispatch(s, dom, run);
    assert t.active == s.active[run.id := Run(dom, run.handle, Running)] && t.logs == s.logs;
    assert LiveLog(run.handle, []);
  }

  lemma DispatchKeeps(dropped: Request -> bool, s: State, dom: Id, run: Request)
    requires QueueOk(s) && ActiveOk(s) && Fresh(s, run)
    ensures Keeps(dropped, s, Dispatch(s, dom, run))
  {
    DispatchQueueOk(s, dom, run);
    DispatchActiveOk(s, dom, run);
  }

  lemma EnqueueKeeps(dropped: Request -> bool, s: State, run: Request)
    requires QueueOk(s) && ActiveOk(s) && Fresh(s, run)
    ensures Keeps(dropped, s, s.(pending := s.pending + [run]))
  {
    var t := s.(pending := s.pending + [run]);
    forall i | 0 <= i < |t.pending|
      ensures t.pending[i].id !in t.active && Log(t.logs, t.pending[i].handle) == []
      ensures forall jd :: jd in t.active ==> t.active[jd].handle != t.pending[i].handle
    {
      if i < |s.pending| {
        assert t.pending[i] in s.pending;
        InQueue(s, t.pending[i]);
      }
    }
  }

  lemma SubmitKeeps(dropped: Request -> bool, s: State, run: Request)
    requires QueueOk(s) && ActiveOk(s) && Fresh(s, run)
    ensures Keeps(dropped, s, RouteOrQueue(s, run))
  {
    if MatchOf(s.backends, run).Some? {
      DispatchKeeps(dropped, s, MatchOf(s.backends, run).value, run);
    } else {
      var t := s.(pending := s.pending + [run]);
      EnqueueKeeps(dropped, s, run);
      ReconcileKeeps(dropped, t);
      KeepsTransitive(dropped, s, t, Reconcile(t));
    }
  }

  lemma OutputKeeps(dropped: Request -> bool, s: State, id: Id, msg: Msg)
    requires QueueOk(s) && ActiveOk(s) && Quiet(msg)
    ensures Keeps(dropped, s, Forward(s, id, msg))
  {
    if id in s.active {
      OneRunKeeps(dropped, s, Forward(s, id, msg), id);
    } else {
      SameKeeps(dropped, s, Forward(s, id, msg));
    }
  }

  lemma ClientGoneKeeps(s: State, id: Id)
    requires QueueOk(s) && ActiveOk(s)
    ensures Keeps(Named(id), s, ClientGone(s, id))
  {
    var t := s.(pending := Keep(Named(id), s.pending));
    DropKeeps(Named(id), s);
    SameKeeps(Named(id), t, ClientGone(s, id));
    KeepsTransitive(Named(id), s, t, ClientGone(s, id));
  }

  /** The queued runs a step drops on purpose, without a word. */
  function DroppedBy(e: Event): Request -> bool {
    match e
    case DomLost(dom, _) => PinnedTo(dom)
    case ClientLeft(id) => Named(id)
    case _ => Nobody()
  }

  /** Every step but the end of file transfers. */
  lemma StepKeeps(s: State, e: Event)
    requires QueueOk(s) && ActiveOk(s) && Enabled(s, e) && !e.FilesDone?
    ensures Keeps(DroppedBy(e), s, Next(s, e))
  {
    match e
    case Submit(run) => SubmitKeeps(DroppedBy(e), s, run);
    case Register(order) => SameKeeps(DroppedBy(e), s, Next(s, e));
    case BackendLost(backend, orphans) => BackendGoneKeeps(DroppedBy(e), s, backend, orphans);
    case SnapshotTaken(backend, doms) => SnapshotKeeps(DroppedBy(e), s, backend, doms);
    case Nudge => ReconcileKeeps(DroppedBy(e), s);
    case DomLost(dom, orphans) => DomGoneKeeps(s, dom, orphans);
    case Output(id, msg) => OutputKeeps(DroppedBy(e), s, id, msg);
    case Done(id, success) => FinishReconcileKeeps(DroppedBy(e), s, id, ExecutionDone(success), if success then Finished else Errored);
    case KilledBy(id) => FinishReconcileKeeps(DroppedBy(e), s, id, ExecutionKilled, Killed);
    case ClientLeft(id) => ClientGoneKeeps(s, id);
    case ClientSays(id, what) => SameKeeps(DroppedBy(e), s, Next(s, e));
  }

  /** The end of file transfers closes the run's channel, whatever was said before. */
  lemma FilesDoneKeeps(s: State, id: Id)
    requires QueueOk(s) && ActiveOk(s)
    ensures var t := FilesComplete(s, id);
            && QueueOk(t) && ActiveOk(t) && Follows(s, t) && Conserves(Nobody(), s, t)
            && forall h :: Log(t.logs, h) == Log(s.logs, h) + if id in s.active && s.active[id].handle == h then [Complete] else []
  {
    var t := FilesComplete(s, id);
    if id in s.active {
      OneRunState(Nobody(), s, t, id);
    } else {
      SameKeeps(Nobody(), s, t);
    }
  }
}
