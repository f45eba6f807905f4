/** Completing runs and reconciling: in a settled state the two commute, so a sweep is one
    reconciliation and then the completions. */
module MasterShapes {
  import opened Options
  import opened Scheduler
  import opened Targets
  import opened Master
  import opened MasterRuns
  import opened MasterTheorems
  import opened MasterQueue
  import opened MasterTargets
  import opened TargetOrder

  // ------------------------------------------------------------------------ at rest

  /** Nothing left to do for a reconciliation. */
  ghost predicate AtRest(s: State) {
    Settled(s) && SessionsLive(s) && Current(s)
  }

  lemma RestReconciled(s: State)
    requires AtRest(s)
    ensures Reconcile(s) == s
  {
    NothingToProcess(s);
    NothingToDrain(s);
    NothingToPush(s);
  }

  lemma ReconcileRests(s: State)
    ensures AtRest(Reconcile(s))
  {
    ReconcileSettled(s);
    ReconcileSessions(s);
    ReconcileCurrent(s);
  }

  // ------------------------------------------------------- completing, then reconciling

  ghost predicate NotIn(pending: seq<Request>, h: Handle) {
    forall i :: 0 <= i < |pending| ==> pending[i].handle != h
  }

  lemma AppendsSwap(logs: Logs, h: Handle, a: seq<Msg>, g: Handle, b: seq<Msg>)
    requires h != g
    ensures Append(Append(logs, h, a), g, b) == Append(Append(logs, g, b), h, a)
  {
  }

  lemma {:induction false} KillsLater(drop: Request -> bool, logs: Logs, h: Handle, msgs: seq<Msg>, pending: seq<Request>)
    requires NotIn(pending, h)
    ensures KillDropped(drop, Append(logs, h, msgs), pending) == Append(KillDropped(drop, logs, pending), h, msgs)
  {
    if pending != [] {
      KillsLater(drop, logs, h, msgs, pending[1..]);
      AppendsSwap(KillDropped(drop, logs, pending[1..]), h, msgs, pending[0].handle, KILLED);
    }
  }

  /** What the run itself sees of its completion, in one go. */
  function Ending(h: Handle, msg: Msg): seq<Msg> {
    [msg] + if h.profiled then [] else [Complete]
  }

  lemma AppendTwice(logs: Logs, h: Handle, a: seq<Msg>, b: seq<Msg>)
    ensures Append(Append(logs, h, a), h, b) == Append(logs, h, a + b)
  {
    assert Log(logs, h) + a + b == Log(logs, h) + (a + b);
  }

  lemma FinishLogs(s: State, id: Id, msg: Msg, outcome: Outcome)
    requires id in s.active
    ensures Finish(s, id, msg, outcome).logs == Append(s.logs, s.active[id].handle, Ending(s.active[id].handle, msg))
  {
    var h := s.active[id].handle;
    if h.profiled {
      assert [msg] + [] == [msg];
    } else {
      AppendTwice(s.logs, h, [msg], [Complete]);
    }
  }

  lemma FinishIs(s: State, id: Id, msg: Msg, outcome: Outcome)
    requires id in s.active
    ensures var t, run := Finish(s, id, msg, outcome), s.active[id];
            && t.backends == s.backends && t.pending == s.pending && t.targets == s.targets
            && t.active == (if run.handle.profiled then s.active[id := run.(outcome := outcome)] else s.active - {id})
            && t.logs == Append(s.logs, run.handle, Ending(run.handle, msg))
            && t.sent == s.sent + if run.handle.profiled then TellCompleted(s.backends, id) else multiset{}
  {
    FinishLogs(s, id, msg, outcome);
  }

  lemma SettledReconcile(s: State)
    requires Settled(s)
    ensures Reconcile(s) == PushTargets(DrainDead(s))
  {
    NothingToProcess(s);
  }

  lemma DrainFinished(s: State, id: Id, msg: Msg, outcome: Outcome)
    requires QueueOk(s) && id in s.active
    ensures DrainDead(Finish(s, id, msg, outcome)) == Finish(DrainDead(s), id, msg, outcome)
  {
    FinishIs(s, id, msg, outcome);
    FinishIs(DrainDead(s), id, msg, outcome);
    KillsLater(DeadIn(s.backends), s.logs, s.active[id].handle, Ending(s.active[id].handle, msg), s.pending);
  }

  lemma PushFinished(s: State, id: Id, msg: Msg, outcome: Outcome)
    requires id in s.active
    ensures PushTargets(Finish(s, id, msg, outcome)) == Finish(PushTargets(s), id, msg, outcome)
  {
    FinishIs(s, id, msg, outcome);
    FinishIs(PushTargets(s), id, msg, outcome);
    BagsSwap(s.sent, PushTargets(s).sent, if s.active[id].handle.profiled then TellCompleted(s.backends, id) else multiset{}, s);
  }

  lemma BagsSwap(a: multiset<Out>, b: multiset<Out>, c: multiset<Out>, s: State)
    requires var doms := AllDoms(s.backends);
             a == s.sent && b == s.sent + Pushed(PushTo(s.backends), s.targets, Records(s.pending, doms), Groups(doms), doms, |doms|)
    ensures var doms := AllDoms(s.backends);
            (a + c) + Pushed(PushTo(s.backends), s.targets, Records(s.pending, doms), Groups(doms), doms, |doms|) == b + c
  {
  }

  /** In a settled state a run may as well be completed after the reconciliation. */
  lemma FinishLater(s: State, id: Id, msg: Msg, outcome: Outcome)
    requires QueueOk(s) && Settled(s)
    ensures Reconcile(Finish(s, id, msg, outcome)) == Finish(Reconcile(s), id, msg, outcome)
  {
    SettledReconcile(s);
    if id in s.active {
      FinishIs(s, id, msg, outcome);
      SettledReconcile(Finish(s, id, msg, outcome));
      DrainFinished(s, id, msg, outcome);
      PushFinished(DrainDead(s), id, msg, outcome);
    }
  }

  lemma FinishRests(s: State, id: Id, msg: Msg, outcome: Outcome)
    requires AtRest(s)
    ensures AtRest(Finish(s, id, msg, outcome))
  {
    if id in s.active { FinishIs(s, id, msg, outcome); }
  }

  /** The orphans told and completed, one after the other. */
  function FinishAll(s: State, orphans: seq<Id>): State {
    if orphans == [] then s else
      Finish(FinishAll(s, orphans[..|orphans| - 1]), orphans[|orphans| - 1], Disconnect, Killed)
  }

  lemma {:induction false} FinishAllRests(s: State, orphans: seq<Id>)
    requires AtRest(s)
    ensures AtRest(FinishAll(s, orphans))
  {
    if orphans != [] {
      FinishAllRests(s, orphans[..|orphans| - 1]);
      FinishRests(FinishAll(s, orphans[..|orphans| - 1]), orphans[|orphans| - 1], Disconnect, Killed);
    }
  }

  /** Of a sweep's reconciliations only the first has something to do. */
  lemma {:induction false} SweepIs(s: State, orphans: seq<Id>)
    requires QueueOk(s) && ActiveOk(s) && Settled(s) && orphans != []
    ensures Sweep(s, orphans) == FinishAll(Reconcile(s), orphans)
    ensures AtRest(Sweep(s, orphans))
  {
    var n := |orphans| - 1;
    ReconcileRests(s);
    FinishAllRests(Reconcile(s), orphans);
    if n == 0 {
      FinishLater(s, orphans[0], Disconnect, Killed);
      assert Sweep(s, orphans[..0]) == s && FinishAll(Reconcile(s), orphans[..0]) == Reconcile(s);
    } else {
      SweepIs(s, orphans[..n]);
      var t := Sweep(s, orphans[..n]);
      FinishRests(t, orphans[n], Disconnect, Killed);
      RestReconciled(Finish(t, orphans[n], Disconnect, Killed));
    }
  }

  // ------------------------------------------------------------- what completions change

  ghost function Places(backends: seq<Backend>, b: Id): set<int> {
    set i | 0 <= i < |backends| && backends[i].id == b
  }

  /** How many entries of the map have this id. */
  ghost function Times(backends: seq<Backend>, b: Id): nat {
    |Places(backends, b)|
  }

  lemma TimesMore(backends: seq<Backend>, b: Id)
    requires backends != []
    ensures var n := |backends| - 1; Times(backends, b) == Times(backends[..n], b) + if backends[n].id == b then 1 else 0
  {
    var n := |backends| - 1;
    var before := Places(backends[..n], b);
    assert Places(backends, b) == before + if backends[n].id == b then {n} else {};
  }

  lemma {:induction false} TellTimes(backends: seq<Backend>, id: Id, out: Out)
    ensures TellCompleted(backends, id)[out] == if out.RunCompleted? && out.run == id then Times(backends, out.backend) else 0
  {
    if backends != [] {
      TellTimes(backends[..|backends| - 1], id, out);
      if out.RunCompleted? { TimesMore(backends, out.backend); }
    } else if out.RunCompleted? {
      forall i ensures i !in Places(backends, out.backend) { }
      assert Places(backends, out.backend) == {};
    }
  }

  ghost predicate DistinctActive(s: State, orphans: seq<Id>) {
    && (forall i :: 0 <= i < |orphans| ==> orphans[i] in s.active)
    && (forall i, j :: 0 <= i < j < |orphans| ==> orphans[i] != orphans[j])
  }

  /** The run under this id once the orphans are completed. */
  ghost predicate OrphanState(s: State, t: State, orphans: seq<Id>, id: Id) {
    && (id in t.active <==> id in s.active && !(id in orphans && !s.active[id].handle.profiled))
    && (id in t.active ==> t.active[id] == s.active[id].(outcome := if id in orphans then Killed else s.active[id].outcome))
  }

  lemma OneMoreState(s: State, t: State, orphans: seq<Id>, last: Id, id: Id)
    requires OrphanState(s, t, orphans, id) && last in t.active && last in s.active && t.active[last] == s.active[last]
    ensures OrphanState(s, Finish(t, last, Disconnect, Killed), orphans + [last], id)
  {
    FinishIs(t, last, Disconnect, Killed);
    assert id in orphans + [last] <==> id in orphans || id == last;
  }

  lemma {:induction false} FinishAllState(s: State, orphans: seq<Id>)
    requires DistinctActive(s, orphans)
    ensures var t := FinishAll(s, orphans); t.backends == s.backends && t.pending == s.pending && t.targets == s.targets
    ensures forall id :: OrphanState(s, FinishAll(s, orphans), orphans, id)
  {
    if orphans != [] {
      var init, last := orphans[..|orphans| - 1], orphans[|orphans| - 1];
      FinishAllState(s, init);
      assert orphans == init + [last];
      assert OrphanState(s, FinishAll(s, init), init, last);
      FinishIs(FinishAll(s, init), last, Disconnect, Killed);
      forall id ensures OrphanState(s, FinishAll(s, orphans), orphans, id) {
        OneMoreState(s, FinishAll(s, init), init, last, id);
      }
    }
  }

  lemma LastOrphan(s: State, orphans: seq<Id>)
    requires DistinctActive(s, orphans) && orphans != []
    ensures var init, last := orphans[..|orphans| - 1], orphans[|orphans| - 1];
            && orphans == init + [last] && last !in init && DistinctActive(s, init)
            && last in FinishAll(s, init).active && FinishAll(s, init).active[last] == s.active[last]
            && FinishAll(s, init).backends == s.backends
  {
    var init, last := orphans[..|orphans| - 1], orphans[|orphans| - 1];
    assert orphans == init + [last];
    FinishAllState(s, init);
    assert OrphanState(s, FinishAll(s, init), init, last);
  }

  ghost predicate HasOrphan(s: State, orphans: seq<Id>, h: Handle)
    requires DistinctActive(s, orphans)
  {
    exists i :: 0 <= i < |orphans| && s.active[orphans[i]].handle == h
  }

  lemma HasOrphanMore(s: State, orphans: seq<Id>, h: Handle)
    requires DistinctActive(s, orphans) && ActiveOk(s) && orphans != []
    ensures var init, last := orphans[..|orphans| - 1], orphans[|orphans| - 1];
            && DistinctActive(s, init) && !(HasOrphan(s, init, h) && s.active[last].handle == h)
            && (HasOrphan(s, orphans, h) <==> HasOrphan(s, init, h) || s.active[last].handle == h)
  {
  }

  lemma FinishLog(s: State, id: Id, h: Handle)
    requires id in s.active
    ensures Log(Finish(s, id, Disconnect, Killed).logs, h) == Log(s.logs, h) + if s.active[id].handle == h then Told(h) else []
  {
    FinishIs(s, id, Disconnect, Killed);
    assert Ending(h, Disconnect) == Told(h);
  }

  /** The channel of a run among the orphans, and any other. */
  lemma {:induction false} FinishAllLog(s: State, orphans: seq<Id>, h: Handle)
    requires DistinctActive(s, orphans) && ActiveOk(s)
    ensures Log(FinishAll(s, orphans).logs, h) == Log(s.logs, h) + if HasOrphan(s, orphans, h) then Told(h) else []
  {
    if orphans != [] {
      LastOrphan(s, orphans);
      HasOrphanMore(s, orphans, h);
      FinishAllLog(s, orphans[..|orphans| - 1], h);
      FinishLog(FinishAll(s, orphans[..|orphans| - 1]), orphans[|orphans| - 1], h);
    }
  }

  lemma {:induction false} FinishAllSent(s: State, orphans: seq<Id>, out: Out)
    requires DistinctActive(s, orphans)
    ensures FinishAll(s, orphans).sent[out] == s.sent[out] +
            if out.RunCompleted? && out.run in orphans && s.active[out.run].handle.profiled then Times(s.backends, out.backend) else 0
  {
    if orphans != [] {
      var init, last := orphans[..|orphans| - 1], orphans[|orphans| - 1];
      LastOrphan(s, orphans);
      FinishAllSent(s, init, out);
      FinishIs(FinishAll(s, init), last, Disconnect, Killed);
      TellTimes(s.backends, last, out);
    }
  }

  // --------------------------------------------------------------- the shape of each step

  lemma DoneShape(s: State, id: Id, success: bool)
    requires QueueOk(s) && Settled(s)
    ensures PluginDone(s, id, success) == Finish(Reconcile(s), id, ExecutionDone(success), if success then Finished else Errored)
  {
    FinishLater(s, id, ExecutionDone(success), if success then Finished else Errored);
  }

  lemma KilledShape(s: State, id: Id)
    requires QueueOk(s) && Settled(s)
    ensures PluginKilled(s, id) == Finish(Reconcile(s), id, ExecutionKilled, Killed)
  {
    FinishLater(s, id, ExecutionKilled, Killed);
  }

  function Without(s: State, backend: Id): State {
    s.(backends := WithoutBackend(s.backends, backend))
  }

  lemma WithoutOk(s: State, backend: Id)
    requires QueueOk(s) && ActiveOk(s) && Settled(s)
    ensures QueueOk(Without(s, backend)) && ActiveOk(Without(s, backend)) && Settled(Without(s, backend))
  {
    SameKeeps(Nobody(), s, Without(s, backend));
    WithoutDoms(s.backends, backend);
    FewerSettled(s, Without(s, backend));
  }

  lemma BackendShape(s: State, backend: Id, orphans: seq<Id>)
    requires QueueOk(s) && ActiveOk(s) && Settled(s) && orphans != []
    ensures BackendGone(s, backend, orphans) == FinishAll(Reconcile(Without(s, backend)), orphans)
  {
    WithoutOk(s, backend);
    SweepIs(Without(s, backend), orphans);
  }

  lemma PinnedDriveNothing(pending: seq<Request>, doms: seq<Dom>, dom: Id, group: Id)
    ensures TargetOf(Keep(PinnedTo(dom), pending), doms, group) == TargetOf(pending, doms, group)
  {
    var i := TargetMeans(pending, doms, group);
    var j := KeptTarget(PinnedTo(dom), pending, doms, group);
    if i.Some? {
      assert !PinnedTo(dom)(pending[i.value]);
      OneEarliest(pending, doms, group, i.value, j.value);
    }
  }

  function Unpinned(s: State, dom: Id): State {
    s.(pending := Keep(PinnedTo(dom), s.pending))
  }

  lemma UnpinnedRests(s: State, dom: Id)
    requires AtRest(s)
    ensures AtRest(Unpinned(s, dom))
  {
    var doms, t := AllDoms(s.backends), Unpinned(s, dom);
    KeepMembers(PinnedTo(dom), s.pending);
    FewerSettled(s, t);
    forall g ensures TargetOf(t.pending, doms, g) == TargetOf(s.pending, doms, g) { PinnedDriveNothing(s.pending, doms, dom, g); }
    SameRecords(t.pending, doms, s.pending, doms);
  }

  lemma SweptDom(s: State, dom: Id, orphans: seq<Id>)
    requires QueueOk(s) && ActiveOk(s) && Settled(s) && orphans != []
    ensures DomGone(s, dom, orphans) == Unpinned(FinishAll(Reconcile(s), orphans), dom)
  {
    SweepIs(s, orphans);
    UnpinnedRests(Sweep(s, orphans), dom);
    RestReconciled(Unpinned(Sweep(s, orphans), dom));
  }

  lemma UnsweptDom(s: State, dom: Id)
    ensures DomGone(s, dom, []) == Reconcile(Unpinned(s, dom))
  {
  }
}
