/** Where the master's runs are: nothing waits that could be routed, lost DOMs keep no
    run, and reconciling twice is reconciling once. */
module MasterQueue {
  import opened Options
  import opened Scheduler
  import opened Targets
  import opened Master
  import opened MasterRuns
  import opened MasterTheorems

  // ---------------------------------------------------------------- work conservation

  /** No queued run has a DOM it could go to. */
  ghost predicate Settled(s: State) {
    forall r :: r in s.pending ==> MatchOf(s.backends, r).None?
  }

  /** Settled is about candidates in the snapshots, not about how they are searched. */
  lemma SettledMeans(s: State)
    ensures Settled(s) <==> forall r, d :: r in s.pending && d in AllDoms(s.backends) ==> !Candidate(r, d)
  {
    forall r | r in s.pending
      ensures MatchOf(s.backends, r).None? <==> forall d :: d in AllDoms(s.backends) ==> !Candidate(r, d)
    {
      MatchIff(s.backends, r);
    }
  }

  lemma {:induction false} AllDomsMembers(backends: seq<Backend>)
    ensures forall d :: d in AllDoms(backends) <==> exists b :: b in backends && d in b.doms
  {
    if backends != [] {
      var n := |backends| - 1;
      AllDomsMembers(backends[..n]);
      assert backends == backends[..n] + [backends[n]];
    }
  }

  /** Fewer DOMs, no new runs: still settled. */
  lemma FewerSettled(s: State, t: State)
    requires Settled(s) && forall r :: r in t.pending ==> r in s.pending
    requires forall d :: d in AllDoms(t.backends) ==> d in AllDoms(s.backends)
    ensures Settled(t)
  {
    SettledMeans(s);
    SettledMeans(t);
  }

  lemma ReconcileSettled(s: State)
    ensures Settled(Reconcile(s))
  {
    ReconcileQueue(s);
    ReconcileFacts(s);
  }

  lemma RegisteredDoms(before: seq<Backend>, after: seq<Backend>)
    requires Registers(before, after)
    ensures forall d :: d in AllDoms(after) <==> d in AllDoms(before)
  {
    var id :| multiset(after) == multiset(before) + multiset{Backend(id, [])};
    AllDomsMembers(before);
    AllDomsMembers(after);
    forall b ensures b in after <==> b in before || b == Backend(id, []) {
      assert b in after <==> b in multiset(after);
      assert b in before <==> b in multiset(before);
    }
  }

  lemma {:induction false} WithoutMembers(backends: seq<Backend>, id: Id)
    ensures forall b :: b in WithoutBackend(backends, id) <==> b in backends && b.id != id
  {
    if backends != [] { WithoutMembers(backends[1..], id); }
  }

  lemma WithoutDoms(backends: seq<Backend>, id: Id)
    ensures forall d :: d in AllDoms(WithoutBackend(backends, id)) ==> d in AllDoms(backends)
  {
    WithoutMembers(backends, id);
    AllDomsMembers(backends);
    AllDomsMembers(WithoutBackend(backends, id));
  }

  lemma BackendLostSettled(s: State, backend: Id, orphans: seq<Id>)
    requires Settled(s)
    ensures Settled(BackendGone(s, backend, orphans))
  {
    var t := s.(backends := WithoutBackend(s.backends, backend));
    if orphans == [] {
      WithoutDoms(s.backends, backend);
      FewerSettled(s, t);
    } else {
      var before := Sweep(t, orphans[..|orphans| - 1]);
      ReconcileSettled(Finish(before, orphans[|orphans| - 1], Disconnect, Killed));
    }
  }

  lemma SubmitSettled(s: State, run: Request)
    requires Settled(s)
    ensures Settled(RouteOrQueue(s, run))
  {
    if MatchOf(s.backends, run).None? { ReconcileSettled(s.(pending := s.pending + [run])); }
  }

  lemma LeftSettled(s: State, id: Id)
    requires Settled(s)
    ensures Settled(ClientGone(s, id))
  {
    KeepMembers(Named(id), s.pending);
    FewerSettled(s, ClientGone(s, id));
  }

  lemma StepSettled(s: State, e: Event)
    requires Settled(s) && Enabled(s, e)
    ensures Settled(Next(s, e))
  {
    match e
    case Submit(run) => SubmitSettled(s, run);
    case Register(order) => RegisteredDoms(s.backends, order); FewerSettled(s, Next(s, e));
    case BackendLost(backend, orphans) => BackendLostSettled(s, backend, orphans);
    case SnapshotTaken(backend, doms) => ReconcileSettled(s.(backends := WithSnapshot(s.backends, backend, doms)));
    case Nudge => ReconcileSettled(s);
    case DomLost(dom, orphans) => var t := Sweep(s, orphans); ReconcileSettled(t.(pending := Keep(PinnedTo(dom), t.pending)));
    case Output(_, _) =>
    case Done(id, success) => ReconcileSettled(Finish(s, id, ExecutionDone(success), if success then Finished else Errored));
    case KilledBy(id) => ReconcileSettled(Finish(s, id, ExecutionKilled, Killed));
    case FilesDone(_) =>
    case ClientLeft(id) => LeftSettled(s, id);
    case ClientSays(_, _) =>
  }

  /** Work conservation: after every locked step of every run, no queued run has a
      candidate in the current snapshots. */
  lemma {:induction false} RunSettled(run: seq<Event>)
    requires Possible(run)
    ensures forall r, d :: r in After(run).pending && d in AllDoms(After(run).backends) ==> !Candidate(r, d)
  {
    StaysSettled(run);
    SettledMeans(After(run));
  }

  lemma {:induction false} StaysSettled(run: seq<Event>)
    requires Possible(run)
    ensures Settled(After(run))
  {
    if run != [] {
      StaysSettled(run[..|run| - 1]);
      StepSettled(After(run[..|run| - 1]), run[|run| - 1]);
    }
  }

  // ------------------------------------------------------------------------- fixpoint

  lemma NothingToProcess(s: State)
    requires Settled(s)
    ensures ProcessPending(s) == s
  {
    forall i | 0 <= i < |s.pending| ensures MatchOf(s.backends, s.pending[i]).None? { assert s.pending[i] in s.pending; }
    DispatchSkip(s, s.pending, 0, |s.pending|);
    KeepAll(Matched(s.backends), s.pending);
  }

  /** Every queued run's studio has a connected DOM. */
  ghost predicate SessionsLive(s: State) {
    forall r :: r in s.pending ==> !Dead(s.backends, r)
  }

  lemma NothingToDrain(s: State)
    requires SessionsLive(s)
    ensures DrainDead(s) == s
  {
    forall i | 0 <= i < |s.pending| ensures !Dead(s.backends, s.pending[i]) { assert s.pending[i] in s.pending; }
    KeepAll(DeadIn(s.backends), s.pending);
    DropNone(DeadIn(s.backends), s.logs, s.pending);
  }

  lemma NothingToPush(s: State)
    requires s.targets == TargetsOf(s.pending, AllDoms(s.backends))
    ensures PushTargets(s) == s
  {
    var doms := AllDoms(s.backends);
    forall g | g in Groups(doms) ensures !Changed(s.targets, Records(s.pending, doms)(g), g) { }
    PushedNone(PushTo(s.backends), s.targets, Records(s.pending, doms), Groups(doms), doms, |doms|);
  }

  /** A second reconciliation with nothing in between alters nothing and sends nothing,
      to DOMs or to clients. */
  lemma ReconcileTwice(s: State)
    ensures Reconcile(Reconcile(s)) == Reconcile(s)
  {
    var t := Reconcile(s);
    ReconcileSettled(s);
    ReconcileQueue(s);
    ReconcileFacts(s);
    NothingToProcess(t);
    NothingToDrain(t);
    NothingToPush(t);
  }

  // -------------------------------------------------------------------- queue surgery

  /** Processing the queue leaves exactly the unmatched runs, in their order, and makes
      each matched one active on the DOM it matched. */
  lemma ProcessPendingExact(s: State) returns (at: seq<nat>)
    requires QueueOk(s)
    ensures var t := ProcessPending(s);
            && |at| == |t.pending| && (forall i :: 0 <= i < |at| ==> at[i] < |s.pending| && t.pending[i] == s.pending[at[i]])
            && (forall i, j :: 0 <= i < j < |at| ==> at[i] < at[j])
            && (forall k :: 0 <= k < |s.pending| ==>
                  var dom := MatchOf(s.backends, s.pending[k]);
                  if k in at then dom.None?
                  else dom.Some? && s.pending[k].id in t.active
                       && t.active[s.pending[k].id] == Run(dom.value, s.pending[k].handle, Running))
    ensures forall id :: id in s.active ==> id in ProcessPending(s).active && ProcessPending(s).active[id] == s.active[id]
  {
    at := KeepExact(Matched(s.backends), s.pending);
    forall k | 0 <= k < |s.pending| && MatchOf(s.backends, s.pending[k]).Some?
      ensures var t := ProcessPending(s);
              s.pending[k].id in t.active
              && t.active[s.pending[k].id] == Run(MatchOf(s.backends, s.pending[k]).value, s.pending[k].handle, Running)
    {
      DispatchedAt(s, k);
    }
    forall id | id in s.active ensures id in ProcessPending(s).active && ProcessPending(s).active[id] == s.active[id] {
      ActiveStays(s, id);
    }
  }

  lemma DispatchedAt(s: State, k: nat)
    requires QueueOk(s) && k < |s.pending| && MatchOf(s.backends, s.pending[k]).Some?
    ensures var t := ProcessPending(s);
            s.pending[k].id in t.active
            && t.active[s.pending[k].id] == Run(MatchOf(s.backends, s.pending[k]).value, s.pending[k].handle, Running)
  {
    var j := DispatchFromActive(s, s.pending, 0, s.pending[k].id);
    assert Lookup(ProcessPending(s).active, s.pending[k].id) == Lookup(DispatchFrom(s, s.pending, 0).active, s.pending[k].id);
    assert j.Some? && j.value == k;
  }

  lemma ActiveStays(s: State, id: Id)
    requires QueueOk(s) && id in s.active
    ensures id in ProcessPending(s).active && ProcessPending(s).active[id] == s.active[id]
  {
    var j := DispatchFromActive(s, s.pending, 0, id);
    assert Lookup(ProcessPending(s).active, id) == Lookup(s.active, id);
  }

  /** The session drain leaves exactly the runs whose studio lives, in their order; each
      other client gets ExecutionKilled, then Complete; no other client hears anything. */
  lemma DrainExact(s: State) returns (at: seq<nat>)
    requires QueueOk(s)
    ensures var t := DrainDead(s);
            && |at| == |t.pending| && (forall i :: 0 <= i < |at| ==> at[i] < |s.pending| && t.pending[i] == s.pending[at[i]])
            && (forall i, j :: 0 <= i < j < |at| ==> at[i] < at[j])
            && (forall k :: 0 <= k < |s.pending| ==> (k in at <==> !Dead(s.backends, s.pending[k])))
            && SessionsLive(t)
    ensures forall k :: 0 <= k < |s.pending| && Dead(s.backends, s.pending[k]) ==>
              Log(DrainDead(s).logs, s.pending[k].handle) == [ExecutionKilled, Complete]
    ensures forall h :: (forall k :: 0 <= k < |s.pending| && Dead(s.backends, s.pending[k]) ==> s.pending[k].handle != h) ==>
              Log(DrainDead(s).logs, h) == Log(s.logs, h)
  {
    at := KeepExact(DeadIn(s.backends), s.pending);
    KeepMembers(DeadIn(s.backends), s.pending);
    forall k | 0 <= k < |s.pending| && Dead(s.backends, s.pending[k])
      ensures Log(DrainDead(s).logs, s.pending[k].handle) == [ExecutionKilled, Complete]
    {
      DrainedLog(s, k);
    }
    forall h | forall k :: 0 <= k < |s.pending| && Dead(s.backends, s.pending[k]) ==> s.pending[k].handle != h
      ensures Log(DrainDead(s).logs, h) == Log(s.logs, h)
    {
      DropLog(DeadIn(s.backends), s.logs, s.pending, h);
    }
  }

  lemma DrainedLog(s: State, k: nat)
    requires QueueOk(s) && k < |s.pending| && Dead(s.backends, s.pending[k])
    ensures Log(DrainDead(s).logs, s.pending[k].handle) == [ExecutionKilled, Complete]
  {
    DropLog(DeadIn(s.backends), s.logs, s.pending, s.pending[k].handle);
    assert s.pending[k] in s.pending;
  }

  // ------------------------------------------------------------------ lost DOMs, swept

  /** Orphans by where they run only. */
  ghost predicate ByDom(orphaned: Run -> bool) {
    forall a: Run, b: Run :: a.domId == b.domId ==> orphaned(a) == orphaned(b)
  }

  /** No queued run would be dispatched into being an orphan. */
  ghost predicate Harmless(orphaned: Run -> bool, s: State) {
    forall r :: r in s.pending && MatchOf(s.backends, r).Some? ==>
      !orphaned(Run(MatchOf(s.backends, r).value, r.handle, Running))
  }

  /** What an orphan's client was sent once it has been swept. */
  function Told(h: Handle): seq<Msg> {
    if h.profiled then [Disconnect] else [Disconnect, Complete]
  }

  /** The first n orphans are swept, the others as they were; no other run is orphaned. */
  ghost predicate SweptTo(orphaned: Run -> bool, s: State, t: State, orphans: seq<Id>, n: nat)
    requires n <= |orphans| && forall i :: 0 <= i < |orphans| ==> orphans[i] in s.active
  {
    && t.backends == s.backends && QueueOk(t) && ActiveOk(t) && Harmless(orphaned, t)
    && (forall id :: id in t.active && !t.active[id].handle.profiled && orphaned(t.active[id]) ==> Among(orphans, n, id))
    && (forall i :: n <= i < |orphans| ==> Unswept(s, t, orphans[i]))
    && (forall i :: 0 <= i < n ==> SweptRun(s, t, orphans[i]))
  }

  predicate Among(orphans: seq<Id>, n: nat, id: Id) {
    exists i :: n <= i < |orphans| && orphans[i] == id
  }

  ghost predicate Unswept(s: State, t: State, id: Id)
    requires id in s.active
  {
    Stays(s.active[id], t, id) && Log(t.logs, s.active[id].handle) == Log(s.logs, s.active[id].handle)
  }

  ghost predicate SweptRun(s: State, t: State, id: Id)
    requires id in s.active
  {
    var h := s.active[id].handle;
    Log(t.logs, h) == Log(s.logs, h) + Told(h) && if h.profiled then Stays(s.active[id], t, id) else Ended(Log(t.logs, h))
  }

  lemma OthersFinished(s: State, id: Id, jd: Id)
    requires QueueOk(s) && ActiveOk(s) && id in s.active && id != jd
    ensures var t := Finish(s, jd, Disconnect, Killed);
            && id in t.active && t.active[id] == s.active[id]
            && Log(t.logs, s.active[id].handle) == Log(s.logs, s.active[id].handle)
  {
  }

  lemma FinishQueued(s: State, jd: Id)
    requires QueueOk(s) && ActiveOk(s)
    ensures QueueOk(Finish(s, jd, Disconnect, Killed))
  {
    FinishKeeps(Nobody(), s, jd, Disconnect, Killed);
  }

  /** Sweeping one run leaves any other active run and its channel alone. */
  lemma OthersLeft(s: State, id: Id, jd: Id)
    requires QueueOk(s) && ActiveOk(s) && id in s.active && id != jd
    ensures Unswept(s, SweepOne(s, jd), id)
  {
    OthersFinished(s, id, jd);
    FinishQueued(s, jd);
    ActiveLeft(Finish(s, jd, Disconnect, Killed), id);
  }

  /** Reconciling leaves an active run and its channel alone. */
  lemma ActiveLeft(s: State, id: Id)
    requires QueueOk(s) && id in s.active
    ensures id in Reconcile(s).active && Reconcile(s).active[id] == s.active[id]
    ensures Log(Reconcile(s).logs, s.active[id].handle) == Log(s.logs, s.active[id].handle)
  {
    ActiveRemains(s, id);
    ReconcileLeaves(s, s.active[id].handle);
  }

  lemma ActiveRemains(s: State, id: Id)
    requires QueueOk(s) && id in s.active
    ensures id in Reconcile(s).active && Reconcile(s).active[id] == s.active[id]
  {
    var k := ReconcileActive(s, id);
  }

  /** The channel of a run that is told of its loss, before the reconciliation. */
  lemma FinishTells(s: State, id: Id)
    requires QueueOk(s) && ActiveOk(s) && id in s.active
    ensures var t, h := Finish(s, id, Disconnect, Killed), s.active[id].handle;
            && QueueOk(t) && ActiveOk(t) && Log(t.logs, h) == Log(s.logs, h) + Told(h)
            && (if h.profiled then id in t.active && t.active[id].handle == h else id !in t.active)
  {
    var h := s.active[id].handle;
    FinishKeeps(Nobody(), s, id, Disconnect, Killed);
    assert Log(s.logs, h) + [Disconnect] + [Complete] == Log(s.logs, h) + [Disconnect, Complete];
  }

  lemma OneSwept(s: State, id: Id)
    requires QueueOk(s) && ActiveOk(s) && id in s.active
    ensures SweptRun(s, SweepOne(s, id), id)
  {
    var t, h := Finish(s, id, Disconnect, Killed), s.active[id].handle;
    FinishTells(s, id);
    if h.profiled {
      ActiveLeft(t, id);
    } else {
      ReconcileKeeps(Nobody(), t);
      EndedStays(t.logs, Reconcile(t).logs, h);
    }
  }

  lemma HarmlessStays(orphaned: Run -> bool, s: State, jd: Id)
    requires Harmless(orphaned, s)
    ensures Harmless(orphaned, SweepOne(s, jd)) && SweepOne(s, jd).backends == s.backends
  {
    ReconcileFacts(Finish(s, jd, Disconnect, Killed));
    ReconcileQueue(Finish(s, jd, Disconnect, Killed));
  }

  /** An unprofiled orphan after a sweep was one before, and not the one swept. */
  lemma OrphansShrink(orphaned: Run -> bool, s: State, jd: Id, id: Id)
    requires QueueOk(s) && ActiveOk(s) && ByDom(orphaned) && Harmless(orphaned, s)
    requires var t := SweepOne(s, jd); id in t.active && !t.active[id].handle.profiled && orphaned(t.active[id])
    ensures id != jd && id in s.active && !s.active[id].handle.profiled && orphaned(s.active[id])
  {
    var m := Finish(s, jd, Disconnect, Killed);
    FinishKeeps(Nobody(), s, jd, Disconnect, Killed);
    ReconcileActiveFrom(m, id);
    assert m.pending == s.pending && m.backends == s.backends;
  }

  lemma SweptBefore(orphaned: Run -> bool, s: State, t: State, orphans: seq<Id>, n: nat, i: nat)
    requires n < |orphans| && forall k :: 0 <= k < |orphans| ==> orphans[k] in s.active
    requires SweptTo(orphaned, s, t, orphans, n) && i < n && orphans[i] != orphans[n]
    ensures SweptRun(s, SweepOne(t, orphans[n]), orphans[i])
  {
    var h := s.active[orphans[i]].handle;
    assert SweptRun(s, t, orphans[i]);
    if h.profiled {
      OthersLeft(t, orphans[i], orphans[n]);
    } else {
      FinishReconcileKeeps(Nobody(), t, orphans[n], Disconnect, Killed);
      EndedStays(t.logs, SweepOne(t, orphans[n]).logs, h);
    }
  }

  lemma OthersUnswept(orphaned: Run -> bool, s: State, t: State, orphans: seq<Id>, n: nat, i: nat)
    requires n < i < |orphans| && forall k :: 0 <= k < |orphans| ==> orphans[k] in s.active
    requires SweptTo(orphaned, s, t, orphans, n) && orphans[i] != orphans[n]
    ensures Unswept(s, SweepOne(t, orphans[n]), orphans[i])
  {
    assert Unswept(s, t, orphans[i]);
    OthersLeft(t, orphans[i], orphans[n]);
  }

  lemma NextSwept(orphaned: Run -> bool, s: State, t: State, orphans: seq<Id>, n: nat)
    requires n < |orphans| && forall k :: 0 <= k < |orphans| ==> orphans[k] in s.active
    requires SweptTo(orphaned, s, t, orphans, n)
    ensures SweptRun(s, SweepOne(t, orphans[n]), orphans[n])
  {
    assert Unswept(s, t, orphans[n]);
    OneSwept(t, orphans[n]);
  }

  lemma OrphansLeft(orphaned: Run -> bool, s: State, t: State, orphans: seq<Id>, n: nat, id: Id)
    requires n < |orphans| && forall k :: 0 <= k < |orphans| ==> orphans[k] in s.active
    requires ByDom(orphaned) && SweptTo(orphaned, s, t, orphans, n)
    requires var u := SweepOne(t, orphans[n]); id in u.active && !u.active[id].handle.profiled && orphaned(u.active[id])
    ensures Among(orphans, n + 1, id)
  {
    OrphansShrink(orphaned, t, orphans[n], id);
    assert Among(orphans, n, id);
  }

  /** What sweeping one more orphan does to each of them. */
  ghost predicate SweptOneMore(s: State, u: State, orphans: seq<Id>, n: nat, i: nat)
    requires i < |orphans| && orphans[i] in s.active
  {
    if n < i then Unswept(s, u, orphans[i]) else SweptRun(s, u, orphans[i])
  }

  lemma EachSwept(orphaned: Run -> bool, s: State, t: State, orphans: seq<Id>, n: nat, i: nat)
    requires n < |orphans| && i < |orphans| && forall k :: 0 <= k < |orphans| ==> orphans[k] in s.active
    requires i != n ==> orphans[i] != orphans[n]
    requires SweptTo(orphaned, s, t, orphans, n)
    ensures SweptOneMore(s, SweepOne(t, orphans[n]), orphans, n, i)
  {
    if i < n {
      SweptBefore(orphaned, s, t, orphans, n, i);
    } else if i == n {
      NextSwept(orphaned, s, t, orphans, n);
    } else {
      OthersUnswept(orphaned, s, t, orphans, n, i);
    }
  }

  lemma SweptToIntro(orphaned: Run -> bool, s: State, u: State, orphans: seq<Id>, n: nat)
    requires n < |orphans| && forall i :: 0 <= i < |orphans| ==> orphans[i] in s.active
    requires u.backends == s.backends && QueueOk(u) && ActiveOk(u) && Harmless(orphaned, u)
    requires forall id :: id in u.active && !u.active[id].handle.profiled && orphaned(u.active[id]) ==> Among(orphans, n + 1, id)
    requires forall i :: 0 <= i < |orphans| ==> SweptOneMore(s, u, orphans, n, i)
    ensures SweptTo(orphaned, s, u, orphans, n + 1)
  {
    forall i | n + 1 <= i < |orphans| ensures Unswept(s, u, orphans[i]) { assert SweptOneMore(s, u, orphans, n, i); }
    forall i | 0 <= i < n + 1 ensures SweptRun(s, u, orphans[i]) { assert SweptOneMore(s, u, orphans, n, i); }
  }

  lemma SweptNext(orphaned: Run -> bool, s: State, t: State, orphans: seq<Id>, n: nat)
    requires n < |orphans| && forall i :: 0 <= i < |orphans| ==> orphans[i] in s.active
    requires forall i, j :: 0 <= i < j < |orphans| ==> orphans[i] != orphans[j]
    requires ByDom(orphaned) && SweptTo(orphaned, s, t, orphans, n)
    ensures SweptTo(orphaned, s, SweepOne(t, orphans[n]), orphans, n + 1)
  {
    var u := SweepOne(t, orphans[n]);
    FinishReconcileKeeps(Nobody(), t, orphans[n], Disconnect, Killed);
    HarmlessStays(orphaned, t, orphans[n]);
    forall i | 0 <= i < |orphans| ensures SweptOneMore(s, u, orphans, n, i) {
      EachSwept(orphaned, s, t, orphans, n, i);
    }
    forall id | id in u.active && !u.active[id].handle.profiled && orphaned(u.active[id]) ensures Among(orphans, n + 1, id) {
      OrphansLeft(orphaned, s, t, orphans, n, id);
    }
    SweptToIntro(orphaned, s, u, orphans, n);
  }

  lemma NoneSwept(orphaned: Run -> bool, s: State, orphans: seq<Id>)
    requires ListsOrphans(s.active, orphaned, orphans)
    requires QueueOk(s) && ActiveOk(s) && Harmless(orphaned, s)
    ensures forall i :: 0 <= i < |orphans| ==> orphans[i] in s.active
    ensures SweptTo(orphaned, s, s, orphans, 0)
  {
    forall i | 0 <= i < |orphans| ensures orphans[i] in s.active { assert orphans[i] in orphans; }
    forall id | id in orphans ensures Among(orphans, 0, id) { }
  }

  lemma {:induction false} Swept(orphaned: Run -> bool, s: State, orphans: seq<Id>, n: nat)
    requires n <= |orphans| && ListsOrphans(s.active, orphaned, orphans)
    requires QueueOk(s) && ActiveOk(s) && ByDom(orphaned) && Harmless(orphaned, s)
    ensures forall i :: 0 <= i < |orphans| ==> orphans[i] in s.active
    ensures SweptTo(orphaned, s, Sweep(s, orphans[..n]), orphans, n)
  {
    NoneSwept(orphaned, s, orphans);
    if n > 0 {
      Swept(orphaned, s, orphans, n - 1);
      SweptNext(orphaned, s, Sweep(s, orphans[..n - 1]), orphans, n - 1);
      SweepTakes(s, orphans, n);
    }
  }

  lemma SweepTakes(s: State, orphans: seq<Id>, n: nat)
    requires 0 < n <= |orphans|
    ensures Sweep(s, orphans[..n]) == SweepOne(Sweep(s, orphans[..n - 1]), orphans[n - 1])
  {
    assert orphans[..n][..n - 1] == orphans[..n - 1];
  }

  lemma MatchedHasOwner(backends: seq<Backend>, run: Request)
    requires MatchOf(backends, run).Some?
    ensures Owner(backends, MatchOf(backends, run).value).Some?
  {
    MatchIff(backends, run);
    ListedIn(backends, MatchOf(backends, run).value);
  }

  /** Losing a backend sweeps completely: although every completion in the sweep may
      dispatch further runs, afterwards each unprofiled active run is on a DOM that a
      remaining backend lists, and each swept client got Disconnect, then Complete. */
  lemma BackendLossSweeps(s: State, backend: Id, orphans: seq<Id>)
    requires Inv(s) && Enabled(s, BackendLost(backend, orphans))
    ensures var t := BackendGone(s, backend, orphans);
            && (forall id :: id in t.active && !t.active[id].handle.profiled ==>
                  Owner(WithoutBackend(s.backends, backend), t.active[id].domId).Some?)
            && (forall id :: id in s.active && Owner(WithoutBackend(s.backends, backend), s.active[id].domId).None? ==>
                  var h := s.active[id].handle; Log(t.logs, h) == Log(s.logs, h) + Told(h))
  {
    var u := s.(backends := WithoutBackend(s.backends, backend));
    SameKeeps(Nobody(), s, u);
    OwnedHarmless(u);
    forall id ensures SweptOf(NoOwner(u.backends), u, Sweep(u, orphans), id) { SweptAll(NoOwner(u.backends), u, orphans, id); }
    UnownedSwept(u, Sweep(u, orphans));
  }

  lemma UnownedSwept(s: State, t: State)
    requires forall id :: SweptOf(NoOwner(s.backends), s, t, id)
    ensures forall id :: id in t.active && !t.active[id].handle.profiled ==> Owner(s.backends, t.active[id].domId).Some?
    ensures forall id :: id in s.active && Owner(s.backends, s.active[id].domId).None? ==>
              var h := s.active[id].handle; Log(t.logs, h) == Log(s.logs, h) + Told(h)
  {
    forall id ensures id in t.active && !t.active[id].handle.profiled ==> Owner(s.backends, t.active[id].domId).Some? {
      assert SweptOf(NoOwner(s.backends), s, t, id);
    }
    forall id | id in s.active && Owner(s.backends, s.active[id].domId).None?
      ensures Log(t.logs, s.active[id].handle) == Log(s.logs, s.active[id].handle) + Told(s.active[id].handle)
    {
      assert SweptOf(NoOwner(s.backends), s, t, id);
    }
  }

  /** Nothing is dispatched to a DOM without an owner. */
  lemma OwnedHarmless(s: State)
    ensures ByDom(NoOwner(s.backends)) && Harmless(NoOwner(s.backends), s)
  {
    forall r | r in s.pending && MatchOf(s.backends, r).Some?
      ensures !NoOwner(s.backends)(Run(MatchOf(s.backends, r).value, r.handle, Running))
    {
      MatchedHasOwner(s.backends, r);
    }
  }

  /** Under this id: no orphan is left that is not profiled, and one there was has been told. */
  ghost predicate SweptOf(orphaned: Run -> bool, s: State, t: State, id: Id) {
    && (id in t.active && !t.active[id].handle.profiled ==> !orphaned(t.active[id]))
    && (id in s.active && orphaned(s.active[id]) ==>
          Log(t.logs, s.active[id].handle) == Log(s.logs, s.active[id].handle) + Told(s.active[id].handle))
  }

  lemma SweptAll(orphaned: Run -> bool, s: State, orphans: seq<Id>, id: Id)
    requires ListsOrphans(s.active, orphaned, orphans)
    requires QueueOk(s) && ActiveOk(s) && ByDom(orphaned) && Harmless(orphaned, s)
    ensures SweptOf(orphaned, s, Sweep(s, orphans), id)
  {
    Swept(orphaned, s, orphans, |orphans|);
    assert orphans[..|orphans|] == orphans;
    if id in s.active && orphaned(s.active[id]) {
      assert id in orphans;
      var i :| 0 <= i < |orphans| && orphans[i] == id;
      assert SweptRun(s, Sweep(s, orphans), orphans[i]);
    }
  }

  // ------------------------------------------------------------------- a lost DOM

  lemma SweepSettled(s: State, orphans: seq<Id>)
    requires Settled(s)
    ensures Settled(Sweep(s, orphans))
  {
    if orphans != [] {
      ReconcileSettled(Finish(Sweep(s, orphans[..|orphans| - 1]), orphans[|orphans| - 1], Disconnect, Killed));
    }
  }

  /** Dropping queued runs and reconciling a settled state dispatches nothing, and leaves
      channels that have ended, or whose run is active, alone. */
  lemma DropReconciled(s: State, dropped: Request -> bool, h: Handle)
    requires QueueOk(s) && ActiveOk(s) && Settled(s)
    requires Ended(Log(s.logs, h)) || exists id :: id in s.active && s.active[id].handle == h
    ensures var t := Reconcile(s.(pending := Keep(dropped, s.pending)));
            t.active == s.active && Log(t.logs, h) == Log(s.logs, h)
  {
    var u := s.(pending := Keep(dropped, s.pending));
    DropKeeps(dropped, s);
    KeepMembers(dropped, s.pending);
    NothingToProcess(u);
    if id :| id in s.active && s.active[id].handle == h {
      ActiveLeft(u, id);
    } else {
      ReconcileKeeps(dropped, u);
      EndedStays(u.logs, Reconcile(u).logs, h);
    }
  }

  lemma NothingDispatched(s: State, dropped: Request -> bool)
    requires Settled(s)
    ensures Reconcile(s.(pending := Keep(dropped, s.pending))).active == s.active
  {
    KeepMembers(dropped, s.pending);
    NothingToProcess(s.(pending := Keep(dropped, s.pending)));
  }

  /** What the sweep does to the runs on the DOM. */
  lemma DomSwept(s: State, dom: Id, orphans: seq<Id>, id: Id)
    requires Inv(s) && ListsOrphans(s.active, OnDom(dom), orphans) && Harmless(OnDom(dom), s)
    requires id in s.active && s.active[id].domId == dom
    ensures SweptRun(s, Sweep(s, orphans), id)
  {
    Swept(OnDom(dom), s, orphans, |orphans|);
    assert orphans[..|orphans|] == orphans;
    assert id in orphans;
    var i :| 0 <= i < |orphans| && orphans[i] == id;
    assert SweptRun(s, Sweep(s, orphans), orphans[i]);
  }

  lemma DomEmptied(s: State, dom: Id, orphans: seq<Id>)
    requires Inv(s) && ListsOrphans(s.active, OnDom(dom), orphans) && Harmless(OnDom(dom), s)
    ensures QueueOk(Sweep(s, orphans)) && ActiveOk(Sweep(s, orphans))
    ensures forall id :: id in Sweep(s, orphans).active && !Sweep(s, orphans).active[id].handle.profiled ==>
              Sweep(s, orphans).active[id].domId != dom
  {
    Swept(OnDom(dom), s, orphans, |orphans|);
    assert orphans[..|orphans|] == orphans;
  }

  /** The channel of a swept run is as the sweep left it. */
  lemma DomGoneLog(s: State, dom: Id, orphans: seq<Id>, id: Id)
    requires Inv(s) && Settled(s) && Enabled(s, DomLost(dom, orphans)) && id in s.active && s.active[id].domId == dom
    ensures var h := s.active[id].handle; Log(DomGone(s, dom, orphans).logs, h) == Log(s.logs, h) + Told(h)
  {
    DomSwept(s, dom, orphans, id);
    DomEmptied(s, dom, orphans);
    SweepSettled(s, orphans);
    DropReconciled(Sweep(s, orphans), PinnedTo(dom), s.active[id].handle);
  }

  lemma DomGoneQueue(s: State, dom: Id, orphans: seq<Id>)
    ensures forall r :: r in DomGone(s, dom, orphans).pending ==> r.domId != Some(dom)
  {
    var u := Sweep(s, orphans);
    ReconcileQueue(u.(pending := Keep(PinnedTo(dom), u.pending)));
    KeepMembers(PinnedTo(dom), u.pending);
  }

  /** Losing a DOM sweeps it completely, though its backend's snapshot may still show it:
      in a settled state, as every run of the master keeps it, nothing is routed back. */
  lemma DomLossSweeps(s: State, dom: Id, orphans: seq<Id>)
    requires Inv(s) && Settled(s) && Enabled(s, DomLost(dom, orphans))
    ensures var t := DomGone(s, dom, orphans);
            && (forall id :: id in t.active && !t.active[id].handle.profiled ==> t.active[id].domId != dom)
            && (forall id :: id in s.active && s.active[id].domId == dom ==>
                  var h := s.active[id].handle; Log(t.logs, h) == Log(s.logs, h) + Told(h))
            && forall r :: r in t.pending ==> r.domId != Some(dom)
  {
    DomEmptied(s, dom, orphans);
    SweepSettled(s, orphans);
    NothingDispatched(Sweep(s, orphans), PinnedTo(dom));
    DomGoneQueue(s, dom, orphans);
    forall id | id in s.active && s.active[id].domId == dom
      ensures var h := s.active[id].handle; Log(DomGone(s, dom, orphans).logs, h) == Log(s.logs, h) + Told(h)
    {
      DomGoneLog(s, dom, orphans, id);
    }
  }

  // ------------------------------------------------------------ where the drain is late

  /** A backend goes, no active run goes with it, and a queued run loses its studio. */
  ghost predicate LeavesDead(s: State, e: Event) {
    e.BackendLost? && e.orphans == [] && exists r :: r in s.pending && Dead(WithoutBackend(s.backends, e.backend), r)
  }

  lemma ReconcileSessions(s: State)
    ensures SessionsLive(Reconcile(s))
  {
    ReconcileQueue(s);
    ReconcileFacts(s);
  }

  /** Every step leaves each queued run's studio with a connected DOM, except exactly the
      loss of a backend that orphans no run but takes a queued run's studio: that handler
      reconciles only if it has a run to complete, so the queued run waits for the next
      event. */
  lemma SessionsLiveIff(s: State, e: Event)
    requires SessionsLive(s) && Enabled(s, e)
    ensures SessionsLive(Next(s, e)) <==> !LeavesDead(s, e)
  {
    match e
    case Submit(run) => if MatchOf(s.backends, run).None? { ReconcileSessions(s.(pending := s.pending + [run])); }
    case Register(order) => RegisteredDoms(s.backends, order);
    case BackendLost(backend, orphans) => BackendLostSessions(s, backend, orphans);
    case SnapshotTaken(backend, doms) => ReconcileSessions(s.(backends := WithSnapshot(s.backends, backend, doms)));
    case Nudge => ReconcileSessions(s);
    case DomLost(dom, orphans) => var t := Sweep(s, orphans); ReconcileSessions(t.(pending := Keep(PinnedTo(dom), t.pending)));
    case Output(_, _) =>
    case Done(id, success) => ReconcileSessions(Finish(s, id, ExecutionDone(success), if success then Finished else Errored));
    case KilledBy(id) => ReconcileSessions(Finish(s, id, ExecutionKilled, Killed));
    case FilesDone(_) =>
    case ClientLeft(id) => KeepMembers(Named(id), s.pending);
    case ClientSays(_, _) =>
  }

  lemma BackendLostSessions(s: State, backend: Id, orphans: seq<Id>)
    ensures SessionsLive(BackendGone(s, backend, orphans)) <==> !LeavesDead(s, BackendLost(backend, orphans))
  {
    if orphans != [] {
      var t := s.(backends := WithoutBackend(s.backends, backend));
      ReconcileSessions(Finish(Sweep(t, orphans[..|orphans| - 1]), orphans[|orphans| - 1], Disconnect, Killed));
    }
  }
}
