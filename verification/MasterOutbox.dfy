/** What each locked step of the master puts on the backends' control streams, message by
    message. */
module MasterOutbox {
  import opened Options
  import opened Scheduler
  import opened Routing
  import opened Targets
  import opened Master
  import opened MasterRuns
  import opened MasterTheorems
  import opened MasterQueue
  import opened MasterTargets
  import opened MasterShapes
  import opened MasterSteps
  import opened MasterEffects

  // ------------------------------------------------------- scripts, answers, completions

  /** The client of an active run on this DOM says this, or leaves and this kills its run. */
  ghost predicate FromItsClient(s: State, e: Event, dom: Id, what: ToPlugin) {
    exists id :: && id in s.active && s.active[id].domId == dom
                 && (e == ClientSays(id, what) || (e == ClientLeft(id) && what == KillScript(id)))
  }

  /** How often the step to t sends this, target modes aside: the script of a run that
      becomes active, once, to its DOM; what a client says, or the kill when it leaves, once,
      to its run's DOM; and the end of a profiled run to every backend. */
  ghost function Due(s: State, e: Event, t: State, out: Out): nat {
    match out
    case RunCompleted(b, id) =>
      if id in s.active && s.active[id].handle.profiled && Verdict(s, e, id).Some? then Times(t.backends, b) else 0
    case ToDom(b, dom, RunScript(id)) =>
      if id !in s.active && id in t.active && t.active[id].domId == dom && FirstListing(t.backends, dom, b) then 1 else 0
    case ToDom(b, dom, Target(_)) => 0
    case ToDom(b, dom, what) =>
      if FromItsClient(s, e, dom, what) && FirstListing(s.backends, dom, b) then 1 else 0
  }

  /** The same, with the backend as it is found. */
  ghost function Owed(s: State, e: Event, t: State, out: Out): nat {
    match out
    case RunCompleted(b, id) =>
      if id in s.active && s.active[id].handle.profiled && Verdict(s, e, id).Some? then Times(t.backends, b) else 0
    case ToDom(b, dom, RunScript(id)) =>
      if id !in s.active && id in t.active && t.active[id].domId == dom && Owner(t.backends, dom) == Some(b) then 1 else 0
    case ToDom(b, dom, Target(_)) => 0
    case ToDom(b, dom, what) =>
      if FromItsClient(s, e, dom, what) && Owner(s.backends, dom) == Some(b) then 1 else 0
  }

  lemma OwedIsDue(s: State, e: Event, t: State, out: Out)
    ensures Owed(s, e, t, out) == Due(s, e, t, out)
  {
    if out.ToDom? {
      OwnerIff(s.backends, out.dom, out.backend);
      OwnerIff(t.backends, out.dom, out.backend);
    }
  }

  predicate IsTarget(out: Out) {
    out.ToDom? && out.what.Target?
  }

  ghost predicate Sends(s: State, e: Event, t: State, out: Out) {
    t.sent[out] == s.sent[out] + Owed(s, e, t, out)
  }

  lemma PushOneNothingElse(backends: seq<Backend>, prev: TargetModes, now: Id -> (string, seq<Id>), groups: set<Id>, d: Dom, out: Out)
    requires !IsTarget(out)
    ensures PushOne(PushTo(backends), prev, now, groups, d)[out] == 0
  {
  }

  lemma {:induction false} PushedNothingElse(backends: seq<Backend>, prev: TargetModes, now: Id -> (string, seq<Id>), groups: set<Id>, doms: seq<Dom>, n: nat, out: Out)
    requires n <= |doms| && !IsTarget(out)
    ensures Pushed(PushTo(backends), prev, now, groups, doms, n)[out] == 0
  {
    if n > 0 {
      PushedNothingElse(backends, prev, now, groups, doms, n - 1, out);
      PushOneNothingElse(backends, prev, now, groups, doms[n - 1], out);
    }
  }

  lemma PushTargetsSent(s: State, out: Out)
    requires !IsTarget(out)
    ensures PushTargets(s).sent[out] == s.sent[out]
  {
    var doms := AllDoms(s.backends);
    PushedNothingElse(s.backends, s.targets, Records(s.pending, doms), Groups(doms), doms, |doms|, out);
  }

  lemma SettledSent(s: State, out: Out)
    requires Settled(s) && !IsTarget(out)
    ensures Reconcile(s).sent[out] == s.sent[out] && Reconcile(s).active == s.active && Reconcile(s).backends == s.backends
  {
    SettledReconcile(s);
    PushTargetsSent(DrainDead(s), out);
  }

  lemma FinishSent(s: State, id: Id, msg: Msg, outcome: Outcome, out: Out)
    ensures Finish(s, id, msg, outcome).sent[out] == s.sent[out] +
            if id in s.active && s.active[id].handle.profiled && out.RunCompleted? && out.run == id then Times(s.backends, out.backend) else 0
  {
    if id in s.active {
      FinishIs(s, id, msg, outcome);
      TellTimes(s.backends, id, out);
    }
  }

  /** The end of a profiled run, sent by a step that starts no run and hears no client. */
  ghost predicate SendsEnds(s: State, e: Event, t: State, out: Out) {
    t.sent[out] == s.sent[out] +
      if out.RunCompleted? && out.run in s.active && s.active[out.run].handle.profiled && Verdict(s, e, out.run).Some?
      then Times(t.backends, out.backend) else 0
  }

  lemma EndsOnly(s: State, e: Event, t: State, out: Out)
    requires (forall id :: id in t.active ==> id in s.active) && !e.ClientSays? && !e.ClientLeft? && SendsEnds(s, e, t, out)
    ensures Sends(s, e, t, out)
  {
  }

  lemma FinishedSends(s: State, e: Event, of: Id, msg: Msg, outcome: Outcome, out: Out)
    requires Settled(s) && (e.Done? || e.KilledBy?) && !IsTarget(out)
    requires forall id :: id in s.active ==> Verdict(s, e, id) == if of == id then Some(msg) else None
    ensures Sends(s, e, Finish(Reconcile(s), of, msg, outcome), out)
  {
    SettledSent(s, out);
    FinishedEnds(s, e, Reconcile(s), of, msg, outcome, out);
    EndsOnly(s, e, Finish(Reconcile(s), of, msg, outcome), out);
  }

  lemma FinishedEnds(s: State, e: Event, u: State, of: Id, msg: Msg, outcome: Outcome, out: Out)
    requires u.active == s.active && u.sent[out] == s.sent[out]
    requires forall id :: id in s.active ==> Verdict(s, e, id) == if of == id then Some(msg) else None
    ensures SendsEnds(s, e, Finish(u, of, msg, outcome), out)
    ensures forall id :: id in Finish(u, of, msg, outcome).active ==> id in s.active
  {
    FinishSent(u, of, msg, outcome, out);
    FinishQueue(u, of, msg, outcome);
    if of in u.active { FinishIs(u, of, msg, outcome); }
  }

  lemma DoneVerdict(s: State, of: Id, success: bool)
    ensures forall id :: id in s.active ==> Verdict(s, Done(of, success), id) == if of == id then Some(ExecutionDone(success)) else None
  {
  }

  lemma KilledVerdict(s: State, of: Id)
    ensures forall id :: id in s.active ==> Verdict(s, KilledBy(of), id) == if of == id then Some(ExecutionKilled) else None
  {
  }

  lemma DoneSends(s: State, of: Id, success: bool, out: Out)
    requires QueueOk(s) && Settled(s) && !IsTarget(out)
    ensures Sends(s, Done(of, success), PluginDone(s, of, success), out)
  {
    DoneShape(s, of, success);
    DoneVerdict(s, of, success);
    FinishedSends(s, Done(of, success), of, ExecutionDone(success), if success then Finished else Errored, out);
  }

  lemma KilledSends(s: State, of: Id, out: Out)
    requires QueueOk(s) && Settled(s) && !IsTarget(out)
    ensures Sends(s, KilledBy(of), PluginKilled(s, of), out)
  {
    KilledShape(s, of);
    KilledVerdict(s, of);
    FinishedSends(s, KilledBy(of), of, ExecutionKilled, Killed, out);
  }

  /** Orphans completed one after the other. */
  lemma OrphansSend(s: State, e: Event, u: State, t: State, out: Out)
    requires Enabled(s, e) && (e.BackendLost? || e.DomLost?) && !IsTarget(out)
    requires u.active == s.active && DistinctActive(u, e.orphans) && u.sent[out] == s.sent[out]
    requires var f := FinishAll(u, e.orphans); t.active == f.active && t.backends == f.backends && t.sent == f.sent
    ensures Sends(s, e, t, out)
  {
    FinishAllSent(u, e.orphans, out);
    FinishAllState(u, e.orphans);
    if out.RunCompleted? && out.run in s.active { OrphansAre(s, e, out.run); }
    assert SendsEnds(s, e, t, out);
    forall id | id in t.active ensures id in s.active { assert OrphanState(u, FinishAll(u, e.orphans), e.orphans, id); }
    EndsOnly(s, e, t, out);
  }

  lemma LostBackendSends(s: State, backend: Id, orphans: seq<Id>, out: Out)
    requires QueueOk(s) && ActiveOk(s) && Settled(s) && Enabled(s, BackendLost(backend, orphans)) && !IsTarget(out)
    ensures Sends(s, BackendLost(backend, orphans), BackendGone(s, backend, orphans), out)
  {
    var e, u := BackendLost(backend, orphans), Without(s, backend);
    OrphansActive(s, e);
    WithoutOk(s, backend);
    if orphans == [] {
      OrphansSend(s, e, u, u, out);
    } else {
      SettledSent(u, out);
      BackendShape(s, backend, orphans);
      OrphansSend(s, e, Reconcile(u), FinishAll(Reconcile(u), orphans), out);
    }
  }

  lemma LostDomSends(s: State, dom: Id, orphans: seq<Id>, out: Out)
    requires QueueOk(s) && ActiveOk(s) && Settled(s) && Enabled(s, DomLost(dom, orphans)) && !IsTarget(out)
    ensures Sends(s, DomLost(dom, orphans), DomGone(s, dom, orphans), out)
  {
    var e := DomLost(dom, orphans);
    OrphansActive(s, e);
    if orphans == [] {
      var u := Unpinned(s, dom);
      KeepMembers(PinnedTo(dom), s.pending);
      FewerSettled(s, u);
      SettledSent(u, out);
      UnsweptDom(s, dom);
      OrphansSend(s, e, Reconcile(u), Reconcile(u), out);
    } else {
      SettledSent(s, out);
      SweptDom(s, dom, orphans);
      OrphansSend(s, e, Reconcile(s), DomGone(s, dom, orphans), out);
    }
  }

  // -------------------------------------------------------------------- dispatched scripts

  /** Dispatching this run sends this. */
  predicate ScriptOf(backends: seq<Backend>, run: Request, out: Out) {
    MatchOf(backends, run).Some? && Owner(backends, MatchOf(backends, run).value).Some?
    && out == ToDom(Owner(backends, MatchOf(backends, run).value).value, MatchOf(backends, run).value, RunScript(run.id))
  }

  lemma DispatchSent(s: State, dom: Id, run: Request, out: Out)
    requires MatchOf(s.backends, run) == Some(dom)
    ensures Dispatch(s, dom, run).sent[out] == s.sent[out] + if ScriptOf(s.backends, run, out) then 1 else 0
  {
  }

  /** One of the runs from position i on is sent by this. */
  ghost predicate Scripted(backends: seq<Backend>, pending: seq<Request>, i: nat, out: Out) {
    exists k :: i <= k < |pending| && ScriptOf(backends, pending[k], out)
  }

  lemma ScriptedMore(backends: seq<Backend>, pending: seq<Request>, i: nat, out: Out)
    requires i < |pending| && DistinctIds(pending)
    ensures Scripted(backends, pending, i, out) <==> ScriptOf(backends, pending[i], out) || Scripted(backends, pending, i + 1, out)
    ensures !(ScriptOf(backends, pending[i], out) && Scripted(backends, pending, i + 1, out))
  {
    if ScriptOf(backends, pending[i], out) {
      forall k | i + 1 <= k < |pending| ensures !ScriptOf(backends, pending[k], out) { assert pending[i].id != pending[k].id; }
    }
  }

  lemma {:induction false} DispatchFromSent(s: State, pending: seq<Request>, i: nat, out: Out)
    requires i <= |pending| && DistinctIds(pending)
    ensures DispatchFrom(s, pending, i).sent[out] == s.sent[out] + if Scripted(s.backends, pending, i, out) then 1 else 0
    decreases |pending| - i
  {
    if i < |pending| {
      DispatchFromSent(s, pending, i + 1, out);
      DispatchFromKeeps(s, pending, i + 1);
      ScriptedMore(s.backends, pending, i, out);
      var dom := MatchOf(s.backends, pending[i]);
      if dom.Some? { DispatchSent(DispatchFrom(s, pending, i + 1), dom.value, pending[i], out); }
    }
  }

  lemma ReconcileSent(s: State, out: Out)
    requires DistinctIds(s.pending) && !IsTarget(out)
    ensures Reconcile(s).sent[out] == s.sent[out] +
            if Scripted(s.backends, s.pending, 0, out) then 1 else 0
  {
    DispatchFromSent(s, s.pending, 0, out);
    PushTargetsSent(DrainDead(ProcessPending(s)), out);
  }

  /** Whose script this is: the run that becomes active under its id. */
  lemma ScriptOnce(s: State, run: Request, k: nat, out: Out)
    requires QueueOk(s) && k < |s.pending| && s.pending[k] == run && out.ToDom? && out.what.RunScript? && run.id == out.what.run
    ensures var t := Reconcile(s);
            ScriptOf(s.backends, run, out) <==>
              run.id !in s.active && run.id in t.active && t.active[run.id].domId == out.dom && Owner(s.backends, out.dom) == Some(out.backend)
  {
    InQueue(s, run);
    QueueDistinct(s);
    var j := ReconcileActive(s, run.id);
    if j.Some? { SameRun(s, run, s.pending[j.value]); }
  }

  lemma SiftedScript(u: State, b: Id, dom: Id, id: Id)
    requires QueueOk(u)
    ensures var t, out := Reconcile(u), ToDom(b, dom, RunScript(id));
            t.sent[out] == u.sent[out] +
              if id !in u.active && id in t.active && t.active[id].domId == dom && Owner(u.backends, dom) == Some(b) then 1 else 0
  {
    var out := ToDom(b, dom, RunScript(id));
    ReconcileSent(u, out);
    if k :| 0 <= k < |u.pending| && u.pending[k].id == id {
      ScriptOnce(u, u.pending[k], k, out);
      forall j | 0 <= j < |u.pending| && ScriptOf(u.backends, u.pending[j], out) ensures j == k {
        SameRun(u, u.pending[j], u.pending[k]);
      }
    } else {
      QueueDistinct(u);
      var j := ReconcileActive(u, id);
    }
  }

  lemma SiftedSends(s: State, e: Event, u: State, out: Out)
    requires QueueOk(u) && u.active == s.active && u.sent == s.sent && (e.SnapshotTaken? || e.Nudge?) && !IsTarget(out)
    ensures Sends(s, e, Reconcile(u), out)
  {
    ReconcileBackends(u);
    if out.ToDom? && out.what.RunScript? {
      SiftedScript(u, out.backend, out.dom, out.what.run);
    } else {
      ReconcileSent(u, out);
    }
  }

  lemma SubmitSends(s: State, run: Request, out: Out)
    requires QueueOk(s) && Settled(s) && Fresh(s, run) && !IsTarget(out)
    ensures Sends(s, Submit(run), RouteOrQueue(s, run), out)
  {
    if MatchOf(s.backends, run).Some? {
      RoutedSends(s, MatchOf(s.backends, run).value, run, out);
    } else {
      SettledSent(s.(pending := s.pending + [run]), out);
      EndsOnly(s, Submit(run), Reconcile(s.(pending := s.pending + [run])), out);
    }
  }

  lemma RoutedSends(s: State, dom: Id, run: Request, out: Out)
    requires MatchOf(s.backends, run) == Some(dom) && run.id !in s.active && !IsTarget(out)
    ensures Sends(s, Submit(run), Dispatch(s, dom, run), out)
  {
    DispatchSent(s, dom, run, out);
  }

  lemma TellSends(s: State, e: Event, id: Id, what: ToPlugin, t: State, out: Out)
    requires !IsTarget(out) && (e == ClientSays(id, what) || (e == ClientLeft(id) && what == KillScript(id)))
    requires !what.RunScript? && !what.Target?
    requires t.active == s.active && t.backends == s.backends
    requires t.sent == if id in s.active then SendToDom(s, s.active[id].domId, what).sent else s.sent
    ensures Sends(s, e, t, out)
  {
  }

  lemma PassingSends(s: State, e: Event, out: Out)
    requires (e.Register? || e.Output? || e.FilesDone?) && !IsTarget(out)
    ensures Sends(s, e, Next(s, e), out)
  {
  }

  lemma SnapshotSends(s: State, backend: Id, doms: seq<Dom>, out: Out)
    requires QueueOk(s) && ActiveOk(s) && !IsTarget(out)
    ensures Sends(s, SnapshotTaken(backend, doms), Snapshot(s, backend, doms), out)
  {
    var u := s.(backends := WithSnapshot(s.backends, backend, doms));
    SameKeeps(Nobody(), s, u);
    SiftedSends(s, SnapshotTaken(backend, doms), u, out);
  }

  lemma EachSends(s: State, e: Event, out: Out)
    requires QueueOk(s) && ActiveOk(s) && Settled(s) && Enabled(s, e) && !IsTarget(out)
    ensures Sends(s, e, Next(s, e), out)
  {
    match e
    case Submit(run) => SubmitSends(s, run, out);
    case BackendLost(backend, orphans) => LostBackendSends(s, backend, orphans, out);
    case SnapshotTaken(backend, doms) => SnapshotSends(s, backend, doms, out);
    case Nudge => SiftedSends(s, e, s, out);
    case DomLost(dom, orphans) => LostDomSends(s, dom, orphans, out);
    case Done(of, success) => DoneSends(s, of, success, out);
    case KilledBy(of) => KilledSends(s, of, out);
    case ClientLeft(id) => TellSends(s, e, id, KillScript(id), ClientGone(s, id), out);
    case ClientSays(id, what) => TellSends(s, e, id, what, FromClient(s, id, what), out);
    case _ => PassingSends(s, e, out);
  }

  /** Every step sends exactly what is due: no script but that of a run that becomes active,
      no answer but its client's, no end of a run but what the step reports. */
  lemma StepSends(s: State, e: Event, out: Out)
    requires Inv(s) && Settled(s) && Enabled(s, e) && !(out.ToDom? && out.what.Target?)
    ensures Next(s, e).sent[out] == s.sent[out] + Due(s, e, Next(s, e), out)
  {
    EachSends(s, e, out);
    OwedIsDue(s, e, Next(s, e), out);
  }
}
