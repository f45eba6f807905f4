/** Which DOM a run is given, told by the snapshots' own fields. */
module Routing {
  import opened Options
  import opened Route
  import opened Scheduler

  // -------------------------------------------------------------------------- routes

  /** What a route resolves to. What the caller gives stays; without a mode the mode is
      edit; the kind and the context fill in for one another; of the rest, only the
      combinations that exist. */
  lemma ResolveIff(s: Spec, r: Resolved)
    ensures Resolve(s) == Some(r) <==>
            && (s.mode == Some(r.mode) || (s.mode.None? && r.mode == EditMode))
            && (s.kind == Some(r.kind)
                || (s.kind.None? && (s.context, r.kind) in {(Some(Server), ServerDom), (Some(Client), ClientDom), (Some(Cmdbar), EditDom)})
                || (s.kind.None? && s.context in {None, Some(Plugin), Some(Elevated)} && r.kind != ClientDom
                    && (r.kind == EditDom <==> r.mode == EditMode)))
            && (s.context == Some(r.context)
                || (s.context.None? && (r.kind, r.context) in {(EditDom, Plugin), (ServerDom, Server), (ClientDom, Client)}))
            && (r.kind == EditDom || r.mode in {TestMode, PlayMode} || (r.mode == RunMode && r.kind == ServerDom))
            && (r.context in {Plugin, Elevated} || (r.kind, r.context) in {(EditDom, Cmdbar), (ServerDom, Server), (ClientDom, Client)})
  {
  }

  /** The mode is never inferred: a run that asks a studio for another mode than edit says so. */
  lemma ModeIsGiven(s: Spec)
    requires Resolve(s).Some? && Resolve(s).value.mode != EditMode
    ensures s.mode == Some(Resolve(s).value.mode)
  {
    ResolveIff(s, Resolve(s).value);
  }

  // ------------------------------------------------------------------------ snapshots

  /** Entry k of backend number i's snapshot. */
  predicate Entry(backends: seq<Backend>, i: int, k: int) {
    0 <= i < |backends| && 0 <= k < |backends[i].doms|
  }

  /** Where it stands among all DOMs. */
  function At(backends: seq<Backend>, i: nat, k: nat): nat
    requires Entry(backends, i, k)
  {
    |AllDoms(backends[..i])| + k
  }

  lemma {:induction false} DomAt(backends: seq<Backend>, i: nat, k: nat)
    requires Entry(backends, i, k)
    ensures At(backends, i, k) < |AllDoms(backends[..i + 1])| <= |AllDoms(backends)|
    ensures AllDoms(backends)[At(backends, i, k)] == backends[i].doms[k]
  {
    var n := |backends| - 1;
    assert backends[..i + 1][..i] == backends[..i];
    if i < n {
      DomAt(backends[..n], i, k);
      assert backends[..n][..i] == backends[..i] && backends[..n][..i + 1] == backends[..i + 1];
    } else {
      assert backends[..i + 1] == backends;
    }
  }

  lemma {:induction false} PrefixShorter(backends: seq<Backend>, i: nat, j: nat)
    requires i <= j <= |backends|
    ensures |AllDoms(backends[..i])| <= |AllDoms(backends[..j])|
    decreases j
  {
    if i < j {
      PrefixShorter(backends, i, j - 1);
      assert backends[..j][..j - 1] == backends[..j - 1];
    }
  }

  /** The DOMs stand backend by backend, each backend's in its snapshot's order. */
  lemma AtOrder(backends: seq<Backend>, i: nat, k: nat, j: nat, l: nat)
    requires Entry(backends, i, k) && Entry(backends, j, l)
    ensures At(backends, i, k) < At(backends, j, l) <==> i < j || (i == j && k < l)
    ensures At(backends, i, k) == At(backends, j, l) <==> i == j && k == l
  {
    DomAt(backends, i, k);
    DomAt(backends, j, l);
    if i < j { PrefixShorter(backends, i + 1, j); }
    if j < i { PrefixShorter(backends, j + 1, i); }
  }

  lemma {:induction false} DomFrom(backends: seq<Backend>, n: nat) returns (i: nat, k: nat)
    requires n < |AllDoms(backends)|
    ensures Entry(backends, i, k) && At(backends, i, k) == n
  {
    var m := |backends| - 1;
    if n < |AllDoms(backends[..m])| {
      i, k := DomFrom(backends[..m], n);
      assert backends[..m][..i] == backends[..i];
    } else {
      i, k := m, n - |AllDoms(backends[..m])|;
    }
  }

  /** Some snapshot has the entry. */
  lemma Shown(backends: seq<Backend>, d: Dom)
    ensures d in AllDoms(backends) <==> exists i, k :: Entry(backends, i, k) && backends[i].doms[k] == d
  {
    if d in AllDoms(backends) {
      var n :| 0 <= n < |AllDoms(backends)| && AllDoms(backends)[n] == d;
      var i, k := DomFrom(backends, n);
      DomAt(backends, i, k);
    }
    if i, k :| Entry(backends, i, k) && backends[i].doms[k] == d { DomAt(backends, i, k); }
  }

  // ---------------------------------------------------------------------------- owners

  /** Backend b is the first whose snapshot has a DOM of this id. */
  ghost predicate FirstListing(backends: seq<Backend>, dom: Id, b: Id) {
    exists i, k :: && Entry(backends, i, k) && backends[i].id == b && backends[i].doms[k].id == dom
                   && forall j, l :: Entry(backends, j, l) && j < i ==> backends[j].doms[l].id != dom
  }

  ghost predicate Listed(backends: seq<Backend>, dom: Id) {
    exists i, k :: Entry(backends, i, k) && backends[i].doms[k].id == dom
  }

  lemma {:induction false} OwnerAt(backends: seq<Backend>, dom: Id) returns (i: nat)
    requires Owner(backends, dom).Some?
    ensures i < |backends| && Lists(backends[i], dom) && Owner(backends, dom) == Some(backends[i].id)
    ensures forall j :: 0 <= j < i ==> !Lists(backends[j], dom)
  {
    if Lists(backends[0], dom) { return 0; }
    i := OwnerAt(backends[1..], dom);
    forall j | 0 <= j < i + 1 ensures !Lists(backends[j], dom) {
      if j > 0 { assert backends[1..][j - 1] == backends[j]; }
    }
    i := i + 1;
  }

  lemma ListsMeans(backends: seq<Backend>, i: nat, dom: Id)
    requires i < |backends|
    ensures Lists(backends[i], dom) <==> exists k :: Entry(backends, i, k) && backends[i].doms[k].id == dom
  {
    if k :| 0 <= k < |backends[i].doms| && backends[i].doms[k].id == dom { assert Entry(backends, i, k); }
  }

  /** What is sent to a DOM goes to the first backend, in the map's order, that lists it,
      and nowhere when none does. */
  lemma OwnerIff(backends: seq<Backend>, dom: Id, b: Id)
    ensures Owner(backends, dom) == Some(b) <==> FirstListing(backends, dom, b)
    ensures Owner(backends, dom).Some? <==> Listed(backends, dom)
  {
    forall i | 0 <= i < |backends|
      ensures Lists(backends[i], dom) <==> exists k :: Entry(backends, i, k) && backends[i].doms[k].id == dom
    {
      ListsMeans(backends, i, dom);
    }
    if Owner(backends, dom).Some? {
      var m := OwnerAt(backends, dom);
      assert FirstListing(backends, dom, backends[m].id);
      if i, k :| && Entry(backends, i, k) && backends[i].id == b && backends[i].doms[k].id == dom
                 && forall j, l :: Entry(backends, j, l) && j < i ==> backends[j].doms[l].id != dom {
        assert Lists(backends[i], dom);
        assert i == m;
      }
    }
  }

  // --------------------------------------------------------------------------- matches

  /** The DOM is connected, belongs to the run's session, and is of the kind and, unless it
      is an edit DOM, in the mode that the route resolves to. */
  ghost predicate Suits(run: Request, d: Dom) {
    && d.connected
    && (run.session.None? || run.session == d.session || run.session == d.studio)
    && forall r :: run.route != Spec(None, None, None) && Resolve(run.route) == Some(r) ==>
         match r.kind
         case EditDom => d.kind == Some("edit")
         case ServerDom => d.kind == Some("server") && InMode(r.mode, d)
         case ClientDom => d.kind == Some("client") && InMode(r.mode, d)
  }

  ghost predicate InMode(mode: Mode, d: Dom) {
    d.mode == Some(match mode case EditMode => "edit" case RunMode => "run" case TestMode => "test" case PlayMode => "play")
  }

  /** The entry suits; none that suits has fewer runs, and none before it as few. */
  ghost predicate Chosen(backends: seq<Backend>, run: Request, i: int, k: int) {
    && Entry(backends, i, k) && Suits(run, backends[i].doms[k])
    && forall j, l :: Entry(backends, j, l) && Suits(run, backends[j].doms[l]) ==>
         if j < i || (j == i && l < k) then backends[i].doms[k].activeRuns < backends[j].doms[l].activeRuns
         else backends[i].doms[k].activeRuns <= backends[j].doms[l].activeRuns
  }

  /** Some DOM the run may go to: the one it is pinned to, connected or not, or one that suits. */
  ghost predicate CanGo(backends: seq<Backend>, run: Request) {
    if run.domId.Some? then Listed(backends, run.domId.value)
    else exists i, k :: Entry(backends, i, k) && Suits(run, backends[i].doms[k])
  }

  lemma SuitsIff(run: Request, d: Dom)
    ensures Suits(run, d) <==> Eligible(run, d)
  {
  }

  lemma ChosenIff(backends: seq<Backend>, run: Request, i: nat, k: nat)
    requires Entry(backends, i, k)
    ensures At(backends, i, k) < |AllDoms(backends)|
    ensures Chosen(backends, run, i, k) <==> LeastLoaded(run, AllDoms(backends), |AllDoms(backends)|, At(backends, i, k))
  {
    var doms, n := AllDoms(backends), At(backends, i, k);
    DomAt(backends, i, k);
    SuitsIff(run, backends[i].doms[k]);
    if LeastLoaded(run, doms, |doms|, n) {
      forall j, l | Entry(backends, j, l) && Suits(run, backends[j].doms[l])
        ensures if j < i || (j == i && l < k) then backends[i].doms[k].activeRuns < backends[j].doms[l].activeRuns
                else backends[i].doms[k].activeRuns <= backends[j].doms[l].activeRuns
      {
        DomAt(backends, j, l);
        AtOrder(backends, j, l, i, k);
        SuitsIff(run, backends[j].doms[l]);
      }
    }
    if Chosen(backends, run, i, k) {
      forall m | 0 <= m < |doms| && Eligible(run, doms[m])
        ensures doms[n].activeRuns <= doms[m].activeRuns && (m < n ==> doms[n].activeRuns < doms[m].activeRuns)
      {
        var j, l := DomFrom(backends, m);
        DomAt(backends, j, l);
        AtOrder(backends, j, l, i, k);
        SuitsIff(run, backends[j].doms[l]);
      }
    }
  }

  /** An unpinned run is matched exactly if some DOM suits, and with the one that has the
      fewest runs, the first of those in the snapshots' order. */
  lemma UnpinnedMatch(backends: seq<Backend>, run: Request)
    requires run.domId.None?
    ensures MatchOf(backends, run).None? <==> !CanGo(backends, run)
    ensures MatchOf(backends, run).Some? ==> exists i, k :: Chosen(backends, run, i, k) && backends[i].doms[k].id == MatchOf(backends, run).value
  {
    var doms := AllDoms(backends);
    BestMeans(run, doms, |doms|);
    if Best(run, doms, |doms|).Some? {
      var n :| 0 <= n < |doms| && doms[n] == Best(run, doms, |doms|).value && LeastLoaded(run, doms, |doms|, n);
      var i, k := DomFrom(backends, n);
      ChosenIff(backends, run, i, k);
      DomAt(backends, i, k);
      assert Chosen(backends, run, i, k);
    } else if i, k :| Entry(backends, i, k) && Suits(run, backends[i].doms[k]) {
      DomAt(backends, i, k);
      SuitsIff(run, backends[i].doms[k]);
    }
  }

  lemma ChosenOnce(backends: seq<Backend>, run: Request, i: int, k: int, j: int, l: int)
    requires Chosen(backends, run, i, k) && Chosen(backends, run, j, l)
    ensures i == j && k == l
  {
  }

  /** The DOM a run is given: the one it is pinned to if some snapshot lists it; otherwise,
      of the connected DOMs of its session and of the kind and mode its route resolves to,
      the one with the fewest runs, first in the snapshots' order among equals. */
  lemma MatchExact(backends: seq<Backend>, run: Request, dom: Id)
    ensures MatchOf(backends, run) == Some(dom) <==>
            if run.domId.Some? then run.domId == Some(dom) && Listed(backends, dom)
            else exists i, k :: Chosen(backends, run, i, k) && backends[i].doms[k].id == dom
    ensures MatchOf(backends, run).Some? <==> CanGo(backends, run)
  {
    if run.domId.Some? {
      OwnerIff(backends, run.domId.value, dom);
    } else {
      UnpinnedMatch(backends, run);
      if i, k :| Chosen(backends, run, i, k) && backends[i].doms[k].id == dom {
        assert CanGo(backends, run);
        var j, l :| Chosen(backends, run, j, l) && backends[j].doms[l].id == MatchOf(backends, run).value;
        ChosenOnce(backends, run, i, k, j, l);
      }
    }
  }

  // -------------------------------------------------------------------------- sessions

  /** The run is scoped to a session or studio of which no connected DOM is left. */
  ghost predicate Stranded(backends: seq<Backend>, run: Request) {
    && run.session.Some? && run.session != Some("")
    && forall i, k :: Entry(backends, i, k) && backends[i].doms[k].connected ==>
         backends[i].doms[k].session != run.session && backends[i].doms[k].studio != run.session
  }

  lemma StrandedIff(backends: seq<Backend>, run: Request)
    ensures Dead(backends, run) <==> Stranded(backends, run)
  {
    if run.session.Some? && SessionAlive(backends, run.session.value) {
      var d :| d in AllDoms(backends) && d.connected && (d.session == run.session || d.studio == run.session);
      Shown(backends, d);
    }
    if i, k :| && Entry(backends, i, k) && backends[i].doms[k].connected
               && (backends[i].doms[k].session == run.session || backends[i].doms[k].studio == run.session) {
      Shown(backends, backends[i].doms[k]);
    }
  }
}
