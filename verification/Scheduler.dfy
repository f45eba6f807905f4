/** The master's run scheduler (rodeo-cli/src/master/mod.rs) as a function of its state:
    matching a run with a DOM, the pending queue, and what each run's client is sent.
    Backends stand in the iteration order of the map that holds them, which is arbitrary
    but fixed while the map is not changed. */
module Scheduler {
  import opened Options
  import opened Route

  type Id = string

  /** A DOM in a backend's latest snapshot. */
  datatype Dom = Dom(id: Id, connected: bool, session: Option<Id>, studio: Option<Id>, kind: Option<string>,
    mode: Option<string>, activeRuns: nat)

  datatype Backend = Backend(id: Id, doms: seq<Dom>)

  /** A run client's channel. Its number is never used again. */
  datatype Handle = Handle(number: nat, profiled: bool)

  datatype Request = Request(id: Id, handle: Handle, route: Spec, session: Option<Id>, domId: Option<Id>, createdAt: int)

  datatype Outcome = Running | Finished | Errored | Killed

  datatype Run = Run(domId: Id, handle: Handle, outcome: Outcome)

  /** What a run client is sent. */
  datatype Msg = Rpc(call: nat) | File(chunk: nat) | ExecutionDone(success: bool) | ExecutionKilled | Disconnect | Complete

  datatype ToPlugin = RunScript(run: Id) | KillScript(run: Id) | Answer(run: Id, response: nat) | Target(mode: string)

  /** What goes out on a backend's control stream. */
  datatype Out = ToDom(backend: Id, dom: Id, what: ToPlugin) | RunCompleted(backend: Id, run: Id)

  type Logs = map<Handle, seq<Msg>>

  type TargetModes = map<Id, (string, seq<Id>)>

  datatype State = State(backends: seq<Backend>, pending: seq<Request>, active: map<Id, Run>, targets: TargetModes,
    logs: Logs, sent: multiset<Out>)

  // ------------------------------------------------------------------------ matching

  function AllDoms(backends: seq<Backend>): seq<Dom> {
    if backends == [] then [] else AllDoms(backends[..|backends| - 1]) + backends[|backends| - 1].doms
  }

  predicate Lists(b: Backend, dom: Id) {
    exists i :: 0 <= i < |b.doms| && b.doms[i].id == dom
  }

  /** The first backend that lists a DOM. */
  function Owner(backends: seq<Backend>, dom: Id): (b: Option<Id>)
    ensures b.Some? <==> exists i :: 0 <= i < |backends| && Lists(backends[i], dom)
  {
    if backends == [] then None
    else if Lists(backends[0], dom) then Some(backends[0].id)
    else Owner(backends[1..], dom)
  }

  predicate SessionFits(session: Option<Id>, d: Dom) {
    session.Some? ==> d.session == session || d.studio == session
  }

  predicate RouteFits(route: Spec, d: Dom) {
    !IsEmpty(route) && Resolve(route).Some? ==>
      var r := Resolve(route).value;
      && d.kind == Some(KindName(r.kind))
      && (r.kind != EditDom ==> d.mode == Some(ModeName(r.mode)))
  }

  /** A DOM an unpinned run may go to. */
  predicate Eligible(run: Request, d: Dom) {
    d.connected && SessionFits(run.session, d) && RouteFits(run.route, d)
  }

  /** A DOM the run may go to: the one it is pinned to, connected or not, or any eligible. */
  predicate Candidate(run: Request, d: Dom) {
    if run.domId.Some? then d.id == run.domId.value else Eligible(run, d)
  }

  /** The choice among the first n DOMs: a later one only if it has fewer runs. */
  function Best(run: Request, doms: seq<Dom>, n: nat): Option<Dom>
    requires n <= |doms|
  {
    if n == 0 then None else
      var before := Best(run, doms, n - 1);
      var d := doms[n - 1];
      if Eligible(run, d) && (before.None? || d.activeRuns < before.value.activeRuns) then Some(d) else before
  }

  function MatchOf(backends: seq<Backend>, run: Request): Option<Id> {
    if run.domId.Some? then (if Owner(backends, run.domId.value).Some? then run.domId else None)
    else
      var best := Best(run, AllDoms(backends), |AllDoms(backends)|);
      if best.Some? then Some(best.value.id) else None
  }

  /** DOM number i is the least loaded eligible one, the first of those as little loaded. */
  ghost predicate LeastLoaded(run: Request, doms: seq<Dom>, n: nat, i: nat)
    requires i < n <= |doms|
  {
    && Eligible(run, doms[i])
    && (forall j :: 0 <= j < n && Eligible(run, doms[j]) ==> doms[i].activeRuns <= doms[j].activeRuns)
    && (forall j :: 0 <= j < i && Eligible(run, doms[j]) ==> doms[i].activeRuns < doms[j].activeRuns)
  }

  lemma {:induction false} BestMeans(run: Request, doms: seq<Dom>, n: nat)
    requires n <= |doms|
    ensures Best(run, doms, n).None? ==> forall i :: 0 <= i < n ==> !Eligible(run, doms[i])
    ensures Best(run, doms, n).Some? ==> exists i :: 0 <= i < n && doms[i] == Best(run, doms, n).value && LeastLoaded(run, doms, n, i)
  {
    if n > 0 {
      BestMeans(run, doms, n - 1);
      var before := Best(run, doms, n - 1);
      if Best(run, doms, n) == before {
        if before.Some? {
          var i :| 0 <= i < n - 1 && doms[i] == before.value && LeastLoaded(run, doms, n - 1, i);
          assert LeastLoaded(run, doms, n, i);
        }
      } else {
        assert LeastLoaded(run, doms, n, n - 1);
      }
    }
  }

  lemma {:induction false} ListedIn(backends: seq<Backend>, dom: Id)
    ensures Owner(backends, dom).Some? <==> exists d :: d in AllDoms(backends) && d.id == dom
  {
    if backends != [] {
      var n := |backends| - 1;
      ListedIn(backends[..n], dom);
      OwnerSnoc(backends[..n], backends[n], dom);
      assert backends == backends[..n] + [backends[n]];
      if Lists(backends[n], dom) {
        var i :| 0 <= i < |backends[n].doms| && backends[n].doms[i].id == dom;
        assert backends[n].doms[i] in AllDoms(backends);
      }
    }
  }

  lemma OwnerSnoc(backends: seq<Backend>, b: Backend, dom: Id)
    ensures Owner(backends + [b], dom).Some? <==> Owner(backends, dom).Some? || Lists(b, dom)
  {
    var more := backends + [b];
    if Lists(b, dom) { assert Lists(more[|backends|], dom); }
    forall i | 0 <= i < |backends| ensures more[i] == backends[i] { }
    if i :| 0 <= i < |backends| && Lists(backends[i], dom) { assert Lists(more[i], dom); }
  }

  lemma PinnedMatch(backends: seq<Backend>, run: Request)
    requires run.domId.Some?
    ensures MatchOf(backends, run).Some? <==> exists d :: d in AllDoms(backends) && Candidate(run, d)
  {
    ListedIn(backends, run.domId.value);
    if d :| d in AllDoms(backends) && d.id == run.domId.value { assert Candidate(run, d); }
  }

  lemma RoutedMatch(backends: seq<Backend>, run: Request)
    requires run.domId.None?
    ensures MatchOf(backends, run).None? ==> forall d :: d in AllDoms(backends) ==> !Candidate(run, d)
    ensures MatchOf(backends, run).Some? ==>
              exists d :: d in AllDoms(backends) && Candidate(run, d) && d.id == MatchOf(backends, run).value
  {
    var doms := AllDoms(backends);
    BestMeans(run, doms, |doms|);
    if Best(run, doms, |doms|).Some? { assert Best(run, doms, |doms|).value in doms; }
  }

  /** Matching fails exactly when no DOM of any snapshot will do, and otherwise finds one
      that does. */
  lemma MatchIff(backends: seq<Backend>, run: Request)
    ensures MatchOf(backends, run).Some? <==> exists d :: d in AllDoms(backends) && Candidate(run, d)
    ensures MatchOf(backends, run).Some? ==>
              exists d :: d in AllDoms(backends) && Candidate(run, d) && d.id == MatchOf(backends, run).value
  {
    if run.domId.Some? { PinnedMatch(backends, run); } else { RoutedMatch(backends, run); }
  }

  // ------------------------------------------------------------------------- sending

  function Log(logs: Logs, h: Handle): seq<Msg> {
    if h in logs then logs[h] else []
  }

  function Append(logs: Logs, h: Handle, msgs: seq<Msg>): Logs {
    logs[h := Log(logs, h) + msgs]
  }

  function Send(s: State, h: Handle, msg: Msg): State {
    s.(logs := Append(s.logs, h, [msg]))
  }

  /** Dropped when no backend lists the DOM. */
  function SendToDom(s: State, dom: Id, what: ToPlugin): State {
    var owner := Owner(s.backends, dom);
    if owner.None? then s else s.(sent := s.sent + multiset{ToDom(owner.value, dom, what)})
  }

  function Dispatch(s: State, dom: Id, run: Request): State {
    SendToDom(s, dom, RunScript(run.id)).(active := s.active[run.id := Run(dom, run.handle, Running)])
  }

  // ------------------------------------------------------------------- pending queue

  /** The runs that are not dropped, in order. */
  function Keep(drop: Request -> bool, pending: seq<Request>): seq<Request> {
    if pending == [] then []
    else if drop(pending[0]) then Keep(drop, pending[1..])
    else [pending[0]] + Keep(drop, pending[1..])
  }

  function Matched(backends: seq<Backend>): Request -> bool {
    (run: Request) => MatchOf(backends, run).Some?
  }

  /** The matched runs from position i on dispatched, the last one first. */
  function DispatchFrom(s: State, pending: seq<Request>, i: nat): State
    requires i <= |pending|
    decreases |pending| - i
  {
    if i == |pending| then s else
      var later := DispatchFrom(s, pending, i + 1);
      var dom := MatchOf(s.backends, pending[i]);
      if dom.Some? then Dispatch(later, dom.value, pending[i]) else later
  }

  function ProcessPending(s: State): State {
    DispatchFrom(s, s.pending, 0).(pending := Keep(Matched(s.backends), s.pending))
  }

  /** Some connected DOM belongs to the session or studio. */
  predicate SessionAlive(backends: seq<Backend>, session: Id) {
    exists d :: d in AllDoms(backends) && d.connected && (d.session == Some(session) || d.studio == Some(session))
  }

  /** A run scoped to a session whose DOMs are all gone. */
  predicate Dead(backends: seq<Backend>, run: Request) {
    run.session.Some? && run.session.value != "" && !SessionAlive(backends, run.session.value)
  }

  const KILLED: seq<Msg> := [ExecutionKilled, Complete]

  /** Each dropped run's client told that it was killed, and that this is all. */
  function KillDropped(drop: Request -> bool, logs: Logs, pending: seq<Request>): Logs {
    if pending == [] then logs
    else
      var rest := KillDropped(drop, logs, pending[1..]);
      if drop(pending[0]) then Append(rest, pending[0].handle, KILLED) else rest
  }

  function DeadIn(backends: seq<Backend>): Request -> bool {
    (run: Request) => Dead(backends, run)
  }

  function DrainDead(s: State): State {
    s.(pending := Keep(DeadIn(s.backends), s.pending), logs := KillDropped(DeadIn(s.backends), s.logs, s.pending))
  }

  // ---------------------------------------------------------------- pending, exactly

  lemma {:induction false} DispatchFromKeeps(s: State, pending: seq<Request>, i: nat)
    requires i <= |pending|
    ensures var t := DispatchFrom(s, pending, i);
            t.backends == s.backends && t.pending == s.pending && t.logs == s.logs && t.targets == s.targets
    decreases |pending| - i
  {
    if i < |pending| { DispatchFromKeeps(s, pending, i + 1); }
  }

  ghost predicate DistinctIds(pending: seq<Request>) {
    forall j, k :: 0 <= j < k < |pending| ==> pending[j].id != pending[k].id
  }

  /** Which runs are active afterwards, whatever the order: those that were, and those
      matched, each on the DOM it matched. */
  lemma {:induction false} DispatchFromActive(s: State, pending: seq<Request>, i: nat, id: Id) returns (k: Option<nat>)
    requires i <= |pending| && DistinctIds(pending)
    ensures k.Some? ==> i <= k.value < |pending| && pending[k.value].id == id && MatchOf(s.backends, pending[k.value]).Some?
    ensures k.None? ==> forall j :: i <= j < |pending| && pending[j].id == id ==> MatchOf(s.backends, pending[j]).None?
    ensures Lookup(DispatchFrom(s, pending, i).active, id) ==
            if k.Some? then Some(Run(MatchOf(s.backends, pending[k.value]).value, pending[k.value].handle, Running))
            else Lookup(s.active, id)
    decreases |pending| - i
  {
    if i == |pending| { return None; }
    k := DispatchFromActive(s, pending, i + 1, id);
    if pending[i].id == id && MatchOf(s.backends, pending[i]).Some? { k := Some(i); }
  }

  function Lookup(active: map<Id, Run>, id: Id): Option<Run> {
    if id in active then Some(active[id]) else None
  }

  lemma {:induction false} KeepAppend(drop: Request -> bool, a: seq<Request>, b: seq<Request>)
    ensures Keep(drop, a + b) == Keep(drop, a) + Keep(drop, b)
  {
    if a == [] {
      assert a + b == b;
    } else {
      KeepAppend(drop, a[1..], b);
      assert (a + b)[0] == a[0] && (a + b)[1..] == a[1..] + b;
    }
  }

  /** Keep takes out exactly the dropped runs and leaves the others in their order: the
      runs kept are those at the positions at, which increase. */
  lemma {:induction false} KeepExact(drop: Request -> bool, pending: seq<Request>) returns (at: seq<nat>)
    ensures |at| == |Keep(drop, pending)|
    ensures forall i :: 0 <= i < |at| ==> at[i] < |pending| && Keep(drop, pending)[i] == pending[at[i]]
    ensures forall i, j :: 0 <= i < j < |at| ==> at[i] < at[j]
    ensures forall k :: 0 <= k < |pending| ==> (k in at <==> !drop(pending[k]))
  {
    if pending == [] { return []; }
    var n := |pending| - 1;
    at := KeepExact(drop, pending[..n]);
    KeepAppend(drop, pending[..n], [pending[n]]);
    assert pending == pending[..n] + [pending[n]];
    if !drop(pending[n]) { at := at + [n]; }
  }

  lemma {:induction false} KeepAll(drop: Request -> bool, pending: seq<Request>)
    requires forall i :: 0 <= i < |pending| ==> !drop(pending[i])
    ensures Keep(drop, pending) == pending
  {
    if pending != [] { KeepAll(drop, pending[1..]); }
  }

  lemma {:induction false} KeepMembers(drop: Request -> bool, pending: seq<Request>)
    ensures forall r :: r in Keep(drop, pending) <==> r in pending && !drop(r)
  {
    if pending != [] { KeepMembers(drop, pending[1..]); }
  }

  /** What a client of the queue was sent by a drain: two messages if its run was
      dropped, else nothing. */
  lemma {:induction false} DropLog(drop: Request -> bool, logs: Logs, pending: seq<Request>, h: Handle)
    requires forall i, j :: 0 <= i < j < |pending| ==> pending[i].handle != pending[j].handle
    ensures Log(KillDropped(drop, logs, pending), h) ==
            Log(logs, h) + if exists r :: r in pending && drop(r) && r.handle == h then KILLED else []
  {
    if pending != [] {
      DropLog(drop, logs, pending[1..], h);
      assert forall r :: r in pending <==> r == pending[0] || r in pending[1..];
      if r :| r in pending[1..] && drop(r) && r.handle == h {
        var k :| 0 <= k < |pending[1..]| && pending[1..][k] == r;
        assert pending[k + 1].handle == h;
      }
    }
  }

  lemma {:induction false} DropNone(drop: Request -> bool, logs: Logs, pending: seq<Request>)
    requires forall i :: 0 <= i < |pending| ==> !drop(pending[i])
    ensures KillDropped(drop, logs, pending) == logs
  {
    if pending != [] { DropNone(drop, logs, pending[1..]); }
  }
}
