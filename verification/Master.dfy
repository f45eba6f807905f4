/** The master's handlers (rodeo-cli/src/master/mod.rs, rodeo-cli/src/master/grpc.rs).
    Each runs under one lock, so each is one step on the state: first as functions, then
    as the methods of the class that does the steps in place. */
module Master {
  import opened Options
  import opened Scheduler
  import opened Targets

  // --------------------------------------------------------------------- completing

  /** Every backend is told that a profiled run is over. */
  function TellCompleted(backends: seq<Backend>, id: Id): multiset<Out> {
    if backends == [] then multiset{} else
      TellCompleted(backends[..|backends| - 1], id) + multiset{RunCompleted(backends[|backends| - 1].id, id)}
  }

  /** The run's own part of `complete_run`: a profiled run stays until its files are
      there, another leaves with a Complete. */
  function Retire(s: State, id: Id, outcome: Outcome): State {
    if id !in s.active then s
    else if s.active[id].handle.profiled then
      s.(active := s.active[id := s.active[id].(outcome := outcome)], sent := s.sent + TellCompleted(s.backends, id))
    else Send(s.(active := s.active - {id}), s.active[id].handle, Complete)
  }

  function CompleteRun(s: State, id: Id, outcome: Outcome): State {
    Reconcile(Retire(s, id, outcome))
  }

  /** A message for the run's client, if the run is active. */
  function Forward(s: State, id: Id, msg: Msg): State {
    if id in s.active then Send(s, s.active[id].handle, msg) else s
  }

  function FilesComplete(s: State, id: Id): State {
    if id in s.active then Send(s.(active := s.active - {id}), s.active[id].handle, Complete) else s
  }

  // --------------------------------------------------------------------- the handlers

  function RouteOrQueue(s: State, run: Request): State {
    var dom := MatchOf(s.backends, run);
    if dom.Some? then Dispatch(s, dom.value, run) else Reconcile(s.(pending := s.pending + [run]))
  }

  /** One orphaned run told about it and completed. */
  function SweepOne(s: State, id: Id): State {
    CompleteRun(Forward(s, id, Disconnect), id, Killed)
  }

  function Sweep(s: State, orphans: seq<Id>): State {
    if orphans == [] then s else SweepOne(Sweep(s, orphans[..|orphans| - 1]), orphans[|orphans| - 1])
  }

  function WithoutBackend(backends: seq<Backend>, id: Id): seq<Backend> {
    if backends == [] then []
    else if backends[0].id == id then WithoutBackend(backends[1..], id)
    else [backends[0]] + WithoutBackend(backends[1..], id)
  }

  function WithSnapshot(backends: seq<Backend>, id: Id, doms: seq<Dom>): (r: seq<Backend>)
    ensures |r| == |backends|
  {
    seq(|backends|, i requires 0 <= i < |backends| => if backends[i].id == id then Backend(id, doms) else backends[i])
  }

  predicate OrphanOf(backends: seq<Backend>, run: Run) {
    Owner(backends, run.domId).None?
  }

  /** orphans lists the active runs that are orphaned, in the map's order. */
  ghost predicate ListsOrphans(active: map<Id, Run>, orphaned: Run -> bool, orphans: seq<Id>) {
    && (forall id :: id in orphans <==> id in active && orphaned(active[id]))
    && forall i, j :: 0 <= i < j < |orphans| ==> orphans[i] != orphans[j]
  }

  function NoOwner(backends: seq<Backend>): Run -> bool {
    (run: Run) => OrphanOf(backends, run)
  }

  function OnDom(dom: Id): Run -> bool {
    (run: Run) => run.domId == dom
  }

  function BackendGone(s: State, backend: Id, orphans: seq<Id>): State {
    Sweep(s.(backends := WithoutBackend(s.backends, backend)), orphans)
  }

  function PinnedTo(dom: Id): Request -> bool {
    (run: Request) => run.domId == Some(dom)
  }

  function DomGone(s: State, dom: Id, orphans: seq<Id>): State {
    var swept := Sweep(s, orphans);
    Reconcile(swept.(pending := Keep(PinnedTo(dom), swept.pending)))
  }

  function Snapshot(s: State, backend: Id, doms: seq<Dom>): State {
    Reconcile(s.(backends := WithSnapshot(s.backends, backend, doms)))
  }

  function Named(id: Id): Request -> bool {
    (run: Request) => run.id == id
  }

  function ClientGone(s: State, id: Id): State {
    var t := s.(pending := Keep(Named(id), s.pending));
    if id in t.active then SendToDom(t, t.active[id].domId, KillScript(id)) else t
  }

  function FromClient(s: State, id: Id, what: ToPlugin): State {
    if id in s.active then SendToDom(s, s.active[id].domId, what) else s
  }

  function PluginDone(s: State, id: Id, success: bool): State {
    CompleteRun(Forward(s, id, ExecutionDone(success)), id, if success then Finished else Errored)
  }

  function PluginKilled(s: State, id: Id): State {
    CompleteRun(Forward(s, id, ExecutionKilled), id, Killed)
  }

  // ----------------------------------------------------------------- the locked steps

  /** What takes the lock. A submitted run has a new channel; orphans are in the order the
      map of active runs is gone through; a registration may reorder the map of backends. */
  datatype Event =
    | Submit(run: Request)
    | Register(order: seq<Backend>)
    | BackendLost(backend: Id, orphans: seq<Id>)
    | SnapshotTaken(backend: Id, doms: seq<Dom>)
    | Nudge
    | DomLost(dom: Id, orphans: seq<Id>)
    | Output(id: Id, msg: Msg)
    | Done(id: Id, success: bool)
    | KilledBy(id: Id)
    | FilesDone(id: Id)
    | ClientLeft(id: Id)
    | ClientSays(id: Id, what: ToPlugin)

  function Next(s: State, e: Event): State {
    match e
    case Submit(run) => RouteOrQueue(s, run)
    case Register(order) => s.(backends := order)
    case BackendLost(backend, orphans) => BackendGone(s, backend, orphans)
    case SnapshotTaken(backend, doms) => Snapshot(s, backend, doms)
    case Nudge => Reconcile(s)
    case DomLost(dom, orphans) => DomGone(s, dom, orphans)
    case Output(id, msg) => Forward(s, id, msg)
    case Done(id, success) => PluginDone(s, id, success)
    case KilledBy(id) => PluginKilled(s, id)
    case FilesDone(id) => FilesComplete(s, id)
    case ClientLeft(id) => ClientGone(s, id)
    case ClientSays(id, what) => FromClient(s, id, what)
  }

  // ----------------------------------------------------------- lemmas for the loops

  lemma {:induction false} AppendsCommute(drop: Request -> bool, logs: Logs, h: Handle, pending: seq<Request>)
    ensures KillDropped(drop, Append(logs, h, KILLED), pending) == Append(KillDropped(drop, logs, pending), h, KILLED)
  {
    if pending != [] {
      AppendsCommute(drop, logs, h, pending[1..]);
    }
  }

  /** Dropping some and then others is dropping both kinds. */
  lemma {:induction false} DropTwice(a: Request -> bool, b: Request -> bool, both: Request -> bool, logs: Logs, pending: seq<Request>)
    requires forall r :: both(r) <==> a(r) || b(r)
    ensures Keep(b, Keep(a, pending)) == Keep(both, pending)
    ensures KillDropped(b, KillDropped(a, logs, pending), Keep(a, pending)) == KillDropped(both, logs, pending)
  {
    if pending != [] {
      DropTwice(a, b, both, logs, pending[1..]);
      if a(pending[0]) {
        AppendsCommute(b, KillDropped(a, logs, pending[1..]), pending[0].handle, Keep(a, pending[1..]));
      } else {
        assert Keep(a, pending)[1..] == Keep(a, pending[1..]);
      }
    }
  }

  lemma {:induction false} KillDroppedAppend(drop: Request -> bool, logs: Logs, a: seq<Request>, x: Request)
    ensures KillDropped(drop, logs, a + [x]) ==
            if drop(x) then Append(KillDropped(drop, logs, a), x.handle, KILLED) else KillDropped(drop, logs, a)
  {
    if a == [] {
      assert [] + [x] == [x];
    } else {
      KillDroppedAppend(drop, logs, a[1..], x);
      assert (a + [x])[1..] == a[1..] + [x];
    }
  }

  /** The matched positions among the first n queued runs, with the DOM each matched. */
  function Routed(matchOf: Request -> Option<Id>, pending: seq<Request>, n: nat): seq<(nat, Id)>
    requires n <= |pending|
  {
    if n == 0 then [] else
      Routed(matchOf, pending, n - 1) + match matchOf(pending[n - 1]) case Some(dom) => [(n - 1, dom)] case None => []
  }

  function Matching(backends: seq<Backend>): Request -> Option<Id> {
    (run: Request) => MatchOf(backends, run)
  }

  lemma RoutedSkip(matchOf: Request -> Option<Id>, pending: seq<Request>, n: nat)
    requires n < |pending| && matchOf(pending[n]).None?
    ensures Routed(matchOf, pending, n + 1) == Routed(matchOf, pending, n)
  {
  }

  lemma RoutedMore(matchOf: Request -> Option<Id>, pending: seq<Request>, n: nat)
    requires n < |pending| && matchOf(pending[n]).Some?
    ensures Routed(matchOf, pending, n + 1) == Routed(matchOf, pending, n) + [(n, matchOf(pending[n]).value)]
  {
  }

  lemma {:induction false} RoutedLast(matchOf: Request -> Option<Id>, pending: seq<Request>, n: nat)
    requires n <= |pending| && Routed(matchOf, pending, n) != []
    ensures var routed := Routed(matchOf, pending, n);
            var (i, dom) := routed[|routed| - 1];
            && i < n && matchOf(pending[i]) == Some(dom) && Routed(matchOf, pending, i) == routed[..|routed| - 1]
            && forall k :: i < k < n ==> matchOf(pending[k]).None?
  {
    if n > 0 && matchOf(pending[n - 1]).None? {
      RoutedSkip(matchOf, pending, n - 1);
      RoutedLast(matchOf, pending, n - 1);
    } else if n > 0 {
      RoutedMore(matchOf, pending, n - 1);
    }
  }

  lemma {:induction false} RoutedNone(matchOf: Request -> Option<Id>, pending: seq<Request>, n: nat)
    requires n <= |pending| && Routed(matchOf, pending, n) == []
    ensures forall k :: 0 <= k < n ==> matchOf(pending[k]).None?
  {
    if n > 0 { RoutedNone(matchOf, pending, n - 1); }
  }

  /** Where nothing matches there is nothing to dispatch. */
  lemma {:induction false} DispatchSkip(s: State, pending: seq<Request>, i: nat, n: nat)
    requires i <= n <= |pending| && forall k :: i <= k < n ==> MatchOf(s.backends, pending[k]).None?
    ensures DispatchFrom(s, pending, i) == DispatchFrom(s, pending, n)
    decreases n - i
  {
    if i < n { DispatchSkip(s, pending, i + 1, n); }
  }

  lemma KeepTail(drop: Request -> bool, pending: seq<Request>, i: nat, n: nat)
    requires i < n <= |pending| && drop(pending[i]) && forall k :: i < k < n ==> !drop(pending[k])
    ensures Keep(drop, pending[i..]) == pending[i + 1..n] + Keep(drop, pending[n..])
  {
    var mid := pending[i + 1..n];
    assert pending[i..] == [pending[i]] + mid + pending[n..];
    KeepAppend(drop, [pending[i]] + mid, pending[n..]);
    KeepAppend(drop, [pending[i]], mid);
    KeepAll(drop, mid);
    assert [pending[i]][1..] == [];
  }

  /** The matched runs at position n and behind are out and dispatched. */
  function PoppedFrom(s: State, n: nat): State
    requires n <= |s.pending|
  {
    DispatchFrom(s, s.pending, n).(pending := s.pending[..n] + Keep(Matched(s.backends), s.pending[n..]))
  }

  lemma PoppedNone(s: State)
    ensures PoppedFrom(s, |s.pending|) == s
  {
    assert s.pending[..|s.pending|] + [] == s.pending;
  }

  lemma PoppedQueue(drop: Request -> bool, queue: seq<Request>, i: nat, n: nat)
    requires i < n <= |queue| && drop(queue[i]) && forall k :: i < k < n ==> !drop(queue[k])
    ensures var popped := queue[..n] + Keep(drop, queue[n..]);
            popped[i] == queue[i] && popped[..i] + popped[i + 1..] == queue[..i] + Keep(drop, queue[i..])
  {
    KeepTail(drop, queue, i, n);
    var popped := queue[..n] + Keep(drop, queue[n..]);
    assert popped[i + 1..] == queue[i + 1..n] + Keep(drop, queue[n..]);
  }

  lemma PoppedNext(s: State, i: nat, n: nat)
    requires i < n <= |s.pending| && MatchOf(s.backends, s.pending[i]).Some?
    requires forall k :: i < k < n ==> MatchOf(s.backends, s.pending[k]).None?
    ensures var popped := PoppedFrom(s, n);
            && popped.pending[i] == s.pending[i]
            && Dispatch(popped.(pending := popped.pending[..i] + popped.pending[i + 1..]), MatchOf(s.backends, s.pending[i]).value, s.pending[i])
               == PoppedFrom(s, i)
  {
    DispatchSkip(s, s.pending, i + 1, n);
    DispatchFromKeeps(s, s.pending, n);
    PoppedQueue(Matched(s.backends), s.pending, i, n);
  }

  lemma PoppedAll(s: State, n: nat)
    requires n <= |s.pending| && forall k :: 0 <= k < n ==> MatchOf(s.backends, s.pending[k]).None?
    ensures PoppedFrom(s, n) == ProcessPending(s)
  {
    DispatchSkip(s, s.pending, 0, n);
    KeepAppend(Matched(s.backends), s.pending[..n], s.pending[n..]);
    KeepAll(Matched(s.backends), s.pending[..n]);
    assert s.pending[..n] + s.pending[n..] == s.pending;
  }

  function OfSession(session: Id): Request -> bool {
    (run: Request) => run.session == Some(session)
  }

  /** Dead, of one of these sessions. */
  function DeadAmong(backends: seq<Backend>, sessions: set<Id>): Request -> bool {
    (run: Request) => Dead(backends, run) && run.session.value in sessions
  }

  lemma TwoMessages(logs: Logs, h: Handle)
    ensures Append(Append(logs, h, [ExecutionKilled]), h, [Complete]) == Append(logs, h, KILLED)
  {
    assert Log(logs, h) + [ExecutionKilled] + [Complete] == Log(logs, h) + KILLED;
  }

  lemma DropNothing(backends: seq<Backend>, logs: Logs, pending: seq<Request>)
    ensures Keep(DeadAmong(backends, {}), pending) == pending
    ensures KillDropped(DeadAmong(backends, {}), logs, pending) == logs
  {
    KeepAll(DeadAmong(backends, {}), pending);
    DropNone(DeadAmong(backends, {}), logs, pending);
  }

  lemma {:induction false} SameDropped(a: Request -> bool, b: Request -> bool, logs: Logs, pending: seq<Request>)
    requires forall r :: r in pending ==> a(r) == b(r)
    ensures Keep(a, pending) == Keep(b, pending) && KillDropped(a, logs, pending) == KillDropped(b, logs, pending)
  {
    if pending != [] { SameDropped(a, b, logs, pending[1..]); }
  }

  lemma TargetsRecorded(pending: seq<Request>, doms: seq<Dom>, next: TargetModes)
    requires next.Keys == Groups(doms) && forall g :: g in next ==> next[g] == Records(pending, doms)(g)
    ensures next == TargetsOf(pending, doms)
  {
  }

  lemma Pushing(s: State, pushes: seq<(Id, string)>, next: TargetModes)
    requires var doms := AllDoms(s.backends);
             Collected(PushTo(s.backends), s.targets, Records(s.pending, doms), doms, Groups(doms), pushes, next)
    ensures PushTargets(s) == s.(targets := next, sent := s.sent + Sum(PushTo(s.backends), pushes))
  {
    TargetsRecorded(s.pending, AllDoms(s.backends), next);
  }

  lemma DoneIs(s: State, id: Id, success: bool, outcome: Outcome)
    requires outcome == if success then Finished else Errored
    ensures Next(s, Done(id, success)) == CompleteRun(Forward(s, id, ExecutionDone(success)), id, outcome)
  {
  }

  // ------------------------------------------------------------------------ the class

  class MasterState {
    var backends: seq<Backend>
    var pending: seq<Request>
    var active: map<Id, Run>
    var targets: TargetModes
    var logs: Logs
    var sent: multiset<Out>

    constructor ()
      ensures Now() == State([], [], map[], map[], map[], multiset{})
    {
      backends, pending, active, targets, logs, sent := [], [], map[], map[], map[], multiset{};
    }

    /** The state as a value. */
    function Now(): State
      reads this
    {
      State(backends, pending, active, targets, logs, sent)
    }

    method SendToClient(h: Handle, msg: Msg)
      modifies this`logs
      ensures Now() == Send(old(Now()), h, msg)
    {
      logs := logs[h := Log(logs, h) + [msg]];
    }

    method SendToPlugin(dom: Id, what: ToPlugin)
      modifies this`sent
      ensures Now() == SendToDom(old(Now()), dom, what)
    {
      var owner := Owner(backends, dom);
      if owner.Some? { sent := sent + multiset{ToDom(owner.value, dom, what)}; }
    }

    /** `find_match_for_run`. */
    method FindMatchForRun(run: Request) returns (dom: Option<Id>)
      ensures dom == MatchOf(backends, run)
    {
      if run.domId.Some? { return if Owner(backends, run.domId.value).Some? then run.domId else None; }
      var doms := AllDoms(backends);
      var best: Option<Dom> := None;
      for n := 0 to |doms|
        invariant best == Best(run, doms, n)
      {
        var d := doms[n];
        if !d.connected || !SessionFits(run.session, d) || !RouteFits(run.route, d) { continue; }
        if best.None? || d.activeRuns < best.value.activeRuns { best := Some(d); }
      }
      dom := if best.Some? then Some(best.value.id) else None;
    }

    method DispatchRun(dom: Id, run: Request)
      modifies this`sent, this`active
      ensures Now() == Dispatch(old(Now()), dom, run)
    {
      SendToPlugin(dom, RunScript(run.id));
      active := active[run.id := Run(dom, run.handle, Running)];
    }

    method RouteAll() returns (routed: seq<(nat, Id)>)
      ensures routed == Routed(Matching(backends), pending, |pending|)
    {
      routed := [];
      for i := 0 to |pending|
        invariant routed == Routed(Matching(backends), pending, i)
      {
        var dom := FindMatchForRun(pending[i]);
        if dom.Some? { routed := routed + [(i, dom.value)]; }
      }
    }

    /** One matched run taken out of the queue and dispatched. */
    method PopRouted(i: nat, dom: Id, ghost s: State, ghost n: nat)
      requires i < n <= |s.pending| && Now() == PoppedFrom(s, n) && MatchOf(s.backends, s.pending[i]) == Some(dom)
      requires forall k :: i < k < n ==> MatchOf(s.backends, s.pending[k]).None?
      modifies this`pending, this`active, this`sent
      ensures Now() == PoppedFrom(s, i)
    {
      PoppedNext(s, i, n);
      var run := pending[i];
      pending := pending[..i] + pending[i + 1..];
      DispatchRun(dom, run);
    }

    /** The last of the first k routed runs taken out; n is how far back the queue has
        been gone through. */
    method PopLast(routed: seq<(nat, Id)>, k: nat, ghost s: State, ghost n: nat) returns (ghost m: nat)
      requires 0 < k <= |routed| && n <= |s.pending| && Now() == PoppedFrom(s, n)
      requires routed[..k] == Routed(Matching(s.backends), s.pending, n)
      modifies this`pending, this`active, this`sent
      ensures m <= |s.pending| && Now() == PoppedFrom(s, m)
      ensures routed[..k - 1] == Routed(Matching(s.backends), s.pending, m)
    {
      RoutedLast(Matching(s.backends), s.pending, n);
      assert routed[..k][..k - 1] == routed[..k - 1] && routed[..k][k - 1] == routed[k - 1];
      PopRouted(routed[k - 1].0, routed[k - 1].1, s, n);
      m := routed[k - 1].0;
    }

    /** All routed runs taken out, from the back. */
    method PopAll(routed: seq<(nat, Id)>, ghost s: State)
      requires Now() == s && routed == Routed(Matching(s.backends), s.pending, |s.pending|)
      modifies this`pending, this`active, this`sent
      ensures Now() == ProcessPending(s)
    {
      ghost var n: nat := |s.pending|;
      PoppedNone(s);
      assert routed[..|routed|] == routed;
      for k := |routed| downto 0
        invariant n <= |s.pending| && Now() == PoppedFrom(s, n)
        invariant routed[..k] == Routed(Matching(s.backends), s.pending, n)
      {
        n := PopLast(routed, k + 1, s, n);
      }
      RoutedNone(Matching(s.backends), s.pending, n);
      PoppedAll(s, n);
    }

    /** `process_pending`: find all matches, then take them out from the back. */
    method ProcessPendingRuns()
      modifies this`pending, this`active, this`sent
      ensures Now() == ProcessPending(old(Now()))
    {
      if pending == [] { return; }
      var routed := RouteAll();
      PopAll(routed, Now());
    }

    /** The runs of one dead session leave the queue, each client told. */
    method DropSession(session: Id)
      requires session != "" && !SessionAlive(backends, session)
      modifies this`pending, this`logs
      ensures Now() == old(Now()).(pending := Keep(OfSession(session), old(pending)), logs := KillDropped(OfSession(session), old(logs), old(pending)))
    {
      ghost var queue, logs0 := pending, logs;
      var kept: seq<Request> := [];
      for i := 0 to |pending|
        invariant pending == queue
        invariant kept == Keep(OfSession(session), queue[..i])
        invariant logs == KillDropped(OfSession(session), logs0, queue[..i])
        invariant Now() == old(Now()).(logs := logs)
      {
        var run := pending[i];
        KillDroppedAppend(OfSession(session), logs0, queue[..i], run);
        KeepAppend(OfSession(session), queue[..i], [run]);
        assert queue[..i + 1] == queue[..i] + [run];
        if run.session == Some(session) {
          TwoMessages(logs, run.handle);
          SendToClient(run.handle, ExecutionKilled);
          SendToClient(run.handle, Complete);
        } else {
          kept := kept + [run];
        }
      }
      assert queue[..|queue|] == queue;
      pending := kept;
    }

    /** `drain_dead_sessions`, session by session in whatever order. */
    method DrainDeadSessions()
      modifies this`pending, this`logs
      ensures Now() == DrainDead(old(Now()))
    {
      ghost var s := Now();
      var rest := set r | r in pending && r.session.Some? && r.session.value != "" :: r.session.value;
      ghost var done: set<Id> := {};
      DropNothing(s.backends, s.logs, s.pending);
      while rest != {}
        invariant forall r :: r in s.pending && r.session.Some? && r.session.value != "" ==> r.session.value in rest || r.session.value in done
        invariant "" !in rest && "" !in done
        invariant Now() == s.(pending := Keep(DeadAmong(s.backends, done), s.pending),
                              logs := KillDropped(DeadAmong(s.backends, done), s.logs, s.pending))
        decreases rest
      {
        var session :| session in rest;
        if SessionAlive(backends, session) {
          SameDropped(DeadAmong(s.backends, done), DeadAmong(s.backends, done + {session}), s.logs, s.pending);
        } else {
          DropTwice(DeadAmong(s.backends, done), OfSession(session), DeadAmong(s.backends, done + {session}), s.logs, s.pending);
          DropSession(session);
        }
        rest, done := rest - {session}, done + {session};
      }
      SameDropped(DeadAmong(s.backends, done), DeadIn(s.backends), s.logs, s.pending);
    }

    method PushEach(pushes: seq<(Id, string)>)
      modifies this`sent
      ensures Now() == old(Now()).(sent := old(sent) + Sum(PushTo(backends), pushes))
    {
      ghost var sent0 := sent;
      assert pushes[..0] == [];
      for i := 0 to |pushes|
        invariant sent == sent0 + Sum(PushTo(backends), pushes[..i])
      {
        assert pushes[..i + 1][..i] == pushes[..i];
        SendToPlugin(pushes[i].0, Target(pushes[i].1));
      }
      assert pushes[..|pushes|] == pushes;
    }

    /** `derive_and_push_targets`. */
    method DeriveAndPushTargets()
      modifies this`targets, this`sent
      ensures Now() == PushTargets(old(Now()))
    {
      var doms := AllDoms(backends);
      ghost var s := Now();
      var groups, idents := GroupDoms(doms);
      var sorted := SortGroups(groups);
      var derived := DeriveModes(pending, doms, idents);
      var pushes, next := CollectPushes(PushTo(backends), targets, Records(pending, doms), doms, sorted, derived);
      targets := next;
      PushEach(pushes);
      Pushing(s, pushes, next);
    }

    /** `reconcile`. */
    method ReconcileAll()
      modifies this`pending, this`active, this`sent, this`logs, this`targets
      ensures Now() == Reconcile(old(Now()))
    {
      ProcessPendingRuns();
      DrainDeadSessions();
      DeriveAndPushTargets();
    }

    method RouteOrQueueRun(run: Request) returns (routed: bool)
      modifies this`pending, this`active, this`sent, this`logs, this`targets
      ensures Now() == Next(old(Now()), Submit(run))
      ensures routed <==> MatchOf(old(backends), run).Some?
    {
      var dom := FindMatchForRun(run);
      if dom.Some? {
        DispatchRun(dom.value, run);
        return true;
      }
      pending := pending + [run];
      ReconcileAll();
      routed := false;
    }

    method TellBackends(id: Id)
      modifies this`sent
      ensures Now() == old(Now()).(sent := old(sent) + TellCompleted(backends, id))
    {
      ghost var sent0 := sent;
      assert backends[..0] == [];
      for i := 0 to |backends|
        invariant sent == sent0 + TellCompleted(backends[..i], id)
      {
        assert backends[..i + 1][..i] == backends[..i];
        sent := sent + multiset{RunCompleted(backends[i].id, id)};
      }
      assert backends[..|backends|] == backends;
    }

    method RetireRun(id: Id, outcome: Outcome)
      modifies this`active, this`sent, this`logs
      ensures Now() == Retire(old(Now()), id, outcome)
    {
      if id in active {
        var run := active[id];
        if run.handle.profiled {
          active := active[id := run.(outcome := outcome)];
          TellBackends(id);
        } else {
          active := active - {id};
          SendToClient(run.handle, Complete);
        }
      }
    }

    /** `complete_run`. */
    method CompleteRunNow(id: Id, outcome: Outcome)
      modifies this`pending, this`active, this`sent, this`logs, this`targets
      ensures Now() == CompleteRun(old(Now()), id, outcome)
    {
      RetireRun(id, outcome);
      ReconcileAll();
    }

    method ForwardToClient(id: Id, msg: Msg)
      modifies this`logs
      ensures Now() == Forward(old(Now()), id, msg)
    {
      if id in active { SendToClient(active[id].handle, msg); }
    }

    /** `handle_files_complete`. */
    method HandleFilesComplete(id: Id)
      modifies this`active, this`logs
      ensures Now() == Next(old(Now()), FilesDone(id))
    {
      if id in active {
        var run := active[id];
        active := active - {id};
        SendToClient(run.handle, Complete);
      }
    }

    /** The orphaned runs, in the order the map is gone through. */
    method ListOrphans(orphaned: Run -> bool) returns (orphans: seq<Id>)
      ensures ListsOrphans(active, orphaned, orphans)
    {
      orphans := [];
      var rest := active.Keys;
      while rest != {}
        invariant rest <= active.Keys
        invariant forall id :: id in orphans <==> id in active && id !in rest && orphaned(active[id])
        invariant forall i, j :: 0 <= i < j < |orphans| ==> orphans[i] != orphans[j]
        decreases rest
      {
        var id :| id in rest;
        if orphaned(active[id]) { orphans := orphans + [id]; }
        rest := rest - {id};
      }
    }

    method SweepOrphans(orphans: seq<Id>)
      modifies this`pending, this`active, this`sent, this`logs, this`targets
      ensures Now() == Sweep(old(Now()), orphans)
    {
      assert orphans[..0] == [];
      for i := 0 to |orphans|
        invariant Now() == Sweep(old(Now()), orphans[..i])
      {
        assert orphans[..i + 1][..i] == orphans[..i];
        ForwardToClient(orphans[i], Disconnect);
        CompleteRunNow(orphans[i], Killed);
      }
      assert orphans[..|orphans|] == orphans;
    }

    /** A backend's control stream has ended. */
    method BackendDisconnected(backend: Id) returns (ghost orphans: seq<Id>)
      modifies this
      ensures ListsOrphans(old(active), NoOwner(WithoutBackend(old(backends), backend)), orphans)
      ensures Now() == Next(old(Now()), BackendLost(backend, orphans))
    {
      backends := WithoutBackend(backends, backend);
      var found := ListOrphans(NoOwner(backends));
      orphans := found;
      SweepOrphans(found);
    }

    /** A DOM's plugin is gone; the snapshot may still show it. */
    method DomDisconnected(dom: Id) returns (ghost orphans: seq<Id>)
      modifies this`pending, this`active, this`sent, this`logs, this`targets
      ensures ListsOrphans(old(active), OnDom(dom), orphans)
      ensures Now() == Next(old(Now()), DomLost(dom, orphans))
    {
      var found := ListOrphans(OnDom(dom));
      orphans := found;
      SweepOrphans(found);
      var kept := KeepRuns(PinnedTo(dom));
      pending := kept;
      ReconcileAll();
    }

    /** `retain`. */
    method KeepRuns(drop: Request -> bool) returns (kept: seq<Request>)
      ensures kept == Keep(drop, pending)
    {
      kept := [];
      assert pending[..0] == [];
      for i := 0 to |pending|
        invariant kept == Keep(drop, pending[..i])
      {
        assert pending[..i + 1] == pending[..i] + [pending[i]];
        KeepAppend(drop, pending[..i], [pending[i]]);
        if !drop(pending[i]) { kept := kept + [pending[i]]; }
      }
      assert pending[..|pending|] == pending;
    }

    /** `forward_rpc_call`, `send_file`: output of the run's plugin, as it is. */
    method OutputArrived(id: Id, msg: Msg)
      requires msg.Rpc? || msg.File?
      modifies this`logs
      ensures Now() == Next(old(Now()), Output(id, msg))
    {
      ForwardToClient(id, msg);
    }

    /** A DOM has connected, a studio's state or a session's end has been reported. */
    method Nudged()
      modifies this`pending, this`active, this`sent, this`logs, this`targets
      ensures Now() == Next(old(Now()), Nudge)
    {
      ReconcileAll();
    }

    /** A backend has registered: a new entry of the map, with an empty snapshot. */
    method BackendRegistered(ghost id: Id, order: seq<Backend>)
      requires multiset(order) == multiset(backends) + multiset{Backend(id, [])}
      modifies this`backends
      ensures Now() == Next(old(Now()), Register(order))
    {
      backends := order;
    }

    method SnapshotArrived(backend: Id, doms: seq<Dom>)
      modifies this
      ensures Now() == Next(old(Now()), SnapshotTaken(backend, doms))
    {
      backends := WithSnapshot(backends, backend, doms);
      ReconcileAll();
    }

    method DoneArrived(id: Id, success: bool)
      modifies this`pending, this`active, this`sent, this`logs, this`targets
      ensures Now() == Next(old(Now()), Done(id, success))
    {
      var outcome := if success then Finished else Errored;
      DoneIs(Now(), id, success, outcome);
      ForwardToClient(id, ExecutionDone(success));
      CompleteRunNow(id, outcome);
    }

    method KilledArrived(id: Id)
      modifies this`pending, this`active, this`sent, this`logs, this`targets
      ensures Now() == Next(old(Now()), KilledBy(id))
    {
      ForwardToClient(id, ExecutionKilled);
      CompleteRunNow(id, Killed);
    }

    /** `disconnect_run`. */
    method ClientDisconnected(id: Id)
      modifies this`pending, this`sent
      ensures Now() == Next(old(Now()), ClientLeft(id))
    {
      var kept := KeepRuns(Named(id));
      pending := kept;
      if id in active { SendToPlugin(active[id].domId, KillScript(id)); }
    }

    /** An RPC response or a kill from the run's client. */
    method ClientSent(id: Id, what: ToPlugin)
      modifies this`sent
      ensures Now() == Next(old(Now()), ClientSays(id, what))
    {
      if id in active { SendToPlugin(active[id].domId, what); }
    }
  }
}
