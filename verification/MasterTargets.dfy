/** Whether every studio is recorded, and so has been told, the target its queue and its
    DOMs ask for: which of the master's steps leave a record behind. */
module MasterTargets {
  import opened Options
  import opened Scheduler
  import opened Targets
  import opened TargetOrder
  import opened Master
  import opened MasterRuns
  import opened MasterTheorems

  /** The records are those of the queue and the snapshots as they are. */
  ghost predicate Current(s: State) {
    s.targets == TargetsOf(s.pending, AllDoms(s.backends))
  }

  lemma ReconcileCurrent(s: State)
    ensures Current(Reconcile(s))
  {
  }

  /** The records agree exactly when every group has the same list and the same target. */
  lemma SameRecords(pending: seq<Request>, doms: seq<Dom>, other: seq<Request>, found: seq<Dom>)
    requires Groups(doms) == Groups(found)
    requires forall g :: g in Groups(doms) ==> SortIds(Members(doms, |doms|, g)) == SortIds(Members(found, |found|, g))
    ensures TargetsOf(pending, doms) == TargetsOf(other, found)
            <==> forall g :: g in Groups(doms) ==> TargetOf(pending, doms, g) == TargetOf(other, found, g)
  {
    var a, b := TargetsOf(pending, doms), TargetsOf(other, found);
    if a == b {
      forall g | g in Groups(doms) ensures TargetOf(pending, doms, g) == TargetOf(other, found, g) {
        assert a[g] == b[g];
      }
    }
  }

  // ------------------------------------------------------------------ the client goes

  /** Run j is next in line for the group behind run i. */
  ghost predicate NextInLine(pending: seq<Request>, doms: seq<Dom>, group: Id, i: nat, j: nat) {
    && j < |pending| && j != i && Applies(pending[j], doms, group)
    && forall k: nat :: k < |pending| && k != i && k != j && Applies(pending[k], doms, group) ==> Before(pending, j, k)
  }

  /** The run decides the group's target, and no run next in line has the same mode. */
  ghost predicate DecidesAlone(pending: seq<Request>, doms: seq<Dom>, group: Id, i: nat) {
    && Earliest(pending, doms, group, i)
    && !exists j: nat :: NextInLine(pending, doms, group, i, j) && ModeOf(pending[j]) == ModeOf(pending[i])
  }

  /** Some group's target is decided alone by the run with this id. */
  ghost predicate DecidesSomewhere(pending: seq<Request>, doms: seq<Dom>, id: Id) {
    exists g, i: nat :: g in Groups(doms) && i < |pending| && pending[i].id == id && DecidesAlone(pending, doms, g, i)
  }

  /** Run j is the earliest for the group of the runs that are not dropped. */
  ghost predicate EarliestKept(drop: Request -> bool, pending: seq<Request>, doms: seq<Dom>, group: Id, j: nat) {
    && j < |pending| && !drop(pending[j]) && Applies(pending[j], doms, group)
    && forall k: nat :: k < |pending| && k != j && !drop(pending[k]) && Applies(pending[k], doms, group) ==> Before(pending, j, k)
  }

  ghost predicate NoneKept(drop: Request -> bool, pending: seq<Request>, doms: seq<Dom>, group: Id) {
    forall k: nat :: k < |pending| && !drop(pending[k]) ==> !Applies(pending[k], doms, group)
  }

  /** What is left of the queue gives the mode of the earliest run left. */
  lemma KeptTarget(drop: Request -> bool, pending: seq<Request>, doms: seq<Dom>, group: Id) returns (j: Option<nat>)
    ensures j.Some? ==> EarliestKept(drop, pending, doms, group, j.value)
                        && TargetOf(Keep(drop, pending), doms, group) == ModeOf(pending[j.value])
    ensures j.None? ==> NoneKept(drop, pending, doms, group) && TargetOf(Keep(drop, pending), doms, group) == ""
  {
    var kept := Keep(drop, pending);
    var at := KeepExact(drop, pending);
    var i := TargetMeans(kept, doms, group);
    j := if i.Some? then Some(at[i.value]) else None;
    if i.Some? { assert at[i.value] in at; }
    forall k: nat | k < |pending| && !drop(pending[k]) && Applies(pending[k], doms, group)
      ensures j.Some? && (k != j.value ==> Before(pending, j.value, k))
    {
      assert k in at;
      var l: nat :| l < |at| && at[l] == k;
      assert kept[l] == pending[k];
      if i.Some? && l != i.value { BeforeKept(kept, pending, at, i.value, l); }
    }
  }

  lemma BeforeKept(kept: seq<Request>, pending: seq<Request>, at: seq<nat>, i: nat, l: nat)
    requires |at| == |kept| && i < |kept| && l < |kept| && Before(kept, i, l)
    requires forall k :: 0 <= k < |at| ==> at[k] < |pending| && kept[k] == pending[at[k]]
    requires forall a, b :: 0 <= a < b < |at| ==> at[a] < at[b]
    ensures Before(pending, at[i], at[l])
  {
  }

  /** A group's target changes with the run that goes exactly if that run decided alone. */
  lemma TargetWithout(pending: seq<Request>, doms: seq<Dom>, group: Id, id: Id)
    requires DistinctIds(pending)
    ensures TargetOf(Keep(Named(id), pending), doms, group) != TargetOf(pending, doms, group)
            <==> exists i: nat :: i < |pending| && pending[i].id == id && DecidesAlone(pending, doms, group, i)
  {
    var first := TargetMeans(pending, doms, group);
    var j := KeptTarget(Named(id), pending, doms, group);
    if first.Some? {
      if pending[first.value].id == id {
        LossOfFirst(pending, doms, group, first.value, j);
      } else {
        FirstKept(pending, doms, group, id, first.value, j);
      }
    }
    forall i: nat | i < |pending| && pending[i].id == id && DecidesAlone(pending, doms, group, i) ensures first == Some(i) {
      OneEarliest(pending, doms, group, i, first.value);
    }
  }

  lemma FirstKept(pending: seq<Request>, doms: seq<Dom>, group: Id, id: Id, i: nat, j: Option<nat>)
    requires Earliest(pending, doms, group, i) && pending[i].id != id
    requires if j.Some? then EarliestKept(Named(id), pending, doms, group, j.value) else NoneKept(Named(id), pending, doms, group)
    ensures j == Some(i)
  {
    assert !Named(id)(pending[i]);
  }

  lemma OthersKept(pending: seq<Request>, i: nat, k: nat)
    requires DistinctIds(pending) && i < |pending| && k < |pending| && i != k
    ensures !Named(pending[i].id)(pending[k])
  {
    if i < k { assert pending[i].id != pending[k].id; } else { assert pending[k].id != pending[i].id; }
  }

  lemma LossOfFirst(pending: seq<Request>, doms: seq<Dom>, group: Id, i: nat, j: Option<nat>)
    requires DistinctIds(pending) && Earliest(pending, doms, group, i)
    requires var drop := Named(pending[i].id);
             if j.Some? then EarliestKept(drop, pending, doms, group, j.value) else NoneKept(drop, pending, doms, group)
    ensures DecidesAlone(pending, doms, group, i) <==> j.None? || ModeOf(pending[j.value]) != ModeOf(pending[i])
  {
    if j.Some? { KeptIsNext(pending, doms, group, i, j.value); }
    forall k: nat | NextInLine(pending, doms, group, i, k) ensures j == Some(k) {
      OthersKept(pending, i, k);
      if j.Some? { OneNext(pending, doms, group, i, j.value, k); }
    }
  }

  lemma KeptIsNext(pending: seq<Request>, doms: seq<Dom>, group: Id, i: nat, j: nat)
    requires DistinctIds(pending) && i < |pending| && EarliestKept(Named(pending[i].id), pending, doms, group, j)
    ensures NextInLine(pending, doms, group, i, j)
  {
    forall k: nat | k < |pending| && k != i && k != j && Applies(pending[k], doms, group) ensures Before(pending, j, k) {
      OthersKept(pending, i, k);
    }
  }

  lemma OneNext(pending: seq<Request>, doms: seq<Dom>, group: Id, i: nat, j: nat, k: nat)
    requires i < |pending| && NextInLine(pending, doms, group, i, j) && NextInLine(pending, doms, group, i, k)
    ensures j == k
  {
  }

  lemma ClientGoneCurrent(s: State, id: Id)
    requires DistinctIds(s.pending) && Current(s)
    ensures Current(ClientGone(s, id)) <==> !DecidesSomewhere(s.pending, AllDoms(s.backends), id)
  {
    var doms, left := AllDoms(s.backends), Keep(Named(id), s.pending);
    SameRecords(s.pending, doms, left, doms);
    forall g | g in Groups(doms)
      ensures TargetOf(s.pending, doms, g) == TargetOf(left, doms, g)
              <==> !exists i: nat :: i < |s.pending| && s.pending[i].id == id && DecidesAlone(s.pending, doms, g, i)
    {
      TargetWithout(s.pending, doms, g, id);
    }
  }

  // ------------------------------------------------------------------ the map changes

  lemma AllDomsSnoc(a: seq<Backend>, b: Backend)
    ensures AllDoms(a + [b]) == AllDoms(a) + b.doms
  {
    assert (a + [b])[..|a|] == a;
  }

  lemma Assoc<T>(a: seq<T>, b: seq<T>, c: seq<T>)
    ensures (a + b) + c == a + (b + c)
  {
  }

  lemma {:induction false} AllDomsConcat(a: seq<Backend>, b: seq<Backend>)
    ensures AllDoms(a + b) == AllDoms(a) + AllDoms(b)
  {
    if b == [] {
      assert a + b == a;
    } else {
      var init, last := b[..|b| - 1], b[|b| - 1];
      assert b == init + [last];
      AllDomsConcat(a, init);
      Assoc(a, init, [last]);
      AllDomsSnoc(a + init, last);
      AllDomsSnoc(init, last);
      Assoc(AllDoms(a), AllDoms(init), last.doms);
    }
  }

  lemma AllDomsOne(b: Backend)
    ensures AllDoms([b]) == b.doms
  {
    assert [b][..0] == [] && AllDoms([]) + b.doms == b.doms;
  }

  /** The backends in another order show the same DOMs in another order. */
  lemma {:induction false} DomsReordered(a: seq<Backend>, b: seq<Backend>)
    requires multiset(a) == multiset(b)
    ensures Reordered(AllDoms(a), AllDoms(b))
  {
    if a == [] {
      assert |multiset(b)| == |b|;
    } else {
      var n := |a| - 1;
      var x, y := LastElsewhere(a, b);
      DomsReordered(a[..n], x + y);
      AllDomsConcat(x + [a[n]], y);
      AllDomsConcat(x, [a[n]]);
      AllDomsConcat(x, y);
      AllDomsOne(a[n]);
    }
  }

  lemma GroupsReordered(doms: seq<Dom>, other: seq<Dom>)
    requires Reordered(doms, other)
    ensures Groups(doms) == Groups(other)
  {
    forall g ensures g in Groups(doms) <==> g in Groups(other) {
      MembersReordered(doms, other, g);
      GroupsHaveMembers(doms, g);
      GroupsHaveMembers(other, g);
      assert |MemberBag(doms, g)| == |Members(doms, |doms|, g)| && |MemberBag(other, g)| == |Members(other, |other|, g)|;
    }
  }

  lemma ReorderedRecords(pending: seq<Request>, doms: seq<Dom>, other: seq<Dom>)
    requires Reordered(doms, other)
    ensures TargetsOf(pending, doms) == TargetsOf(pending, other)
            <==> forall g :: g in Groups(doms) ==> TargetOf(pending, doms, g) == TargetOf(pending, other, g)
  {
    GroupsReordered(doms, other);
    forall g | g in Groups(doms) ensures SortIds(Members(doms, |doms|, g)) == SortIds(Members(other, |other|, g)) {
      MembersReordered(doms, other, g);
      RecordStable(pending, doms, other, g);
    }
    SameRecords(pending, doms, pending, other);
  }

  /** A new backend shows nothing, but the map may put the others in another order. */
  lemma RegisterReorders(before: seq<Backend>, after: seq<Backend>)
    requires Registers(before, after)
    ensures Reordered(AllDoms(before), AllDoms(after))
  {
    var id :| multiset(after) == multiset(before) + multiset{Backend(id, [])};
    DomsReordered(before + [Backend(id, [])], after);
    AllDomsConcat(before, [Backend(id, [])]);
    AllDomsOne(Backend(id, []));
    assert AllDoms(before) + [] == AllDoms(before);
  }

  // ------------------------------------------------------------------- a backend goes

  /** The connected DOMs, in order. */
  function Connected(doms: seq<Dom>): seq<Dom> {
    if doms == [] then [] else
      Connected(doms[..|doms| - 1]) + if doms[|doms| - 1].connected then [doms[|doms| - 1]] else []
  }

  lemma ConnectedSnoc(a: seq<Dom>, d: Dom)
    ensures Connected(a + [d]) == Connected(a) + if d.connected then [d] else []
  {
    assert (a + [d])[..|a|] == a;
  }

  lemma {:induction false} ConnectedConcat(a: seq<Dom>, b: seq<Dom>)
    ensures Connected(a + b) == Connected(a) + Connected(b)
  {
    if b == [] {
      assert a + b == a;
    } else {
      var init, last := b[..|b| - 1], b[|b| - 1];
      assert b == init + [last];
      ConnectedConcat(a, init);
      Assoc(a, init, [last]);
      ConnectedSnoc(a + init, last);
      ConnectedSnoc(init, last);
      Assoc(Connected(a), Connected(init), if last.connected then [last] else []);
    }
  }

  lemma {:induction false} ConnectedMeans(doms: seq<Dom>)
    ensures Connected(doms) != [] <==> exists d :: d in doms && d.connected
  {
    if doms != [] {
      ConnectedMeans(doms[..|doms| - 1]);
      assert doms == doms[..|doms| - 1] + [doms[|doms| - 1]];
    }
  }

  lemma MembersMore(a: seq<Dom>, b: seq<Dom>, group: Id)
    ensures Members(a + b, |a + b|, group) == Members(a, |a|, group) + Members(b, |b|, group)
  {
    MembersConcat(a, b, |b|, group);
  }

  lemma GroupMore(a: seq<Dom>, b: seq<Dom>, ident: Id)
    ensures GroupIn(a + b, ident) == if GroupIn(b, ident).Some? then GroupIn(b, ident) else GroupIn(a, ident)
  {
    GroupForConcat(a, b, |b|, ident);
  }

  lemma Unconnected(d: Dom, group: Id, ident: Id)
    requires !d.connected
    ensures Members([d], 1, group) == [] && GroupIn([d], ident).None?
  {
    assert Members([d], 0, group) == [] && GroupFor([d], 0, ident).None?;
  }

  /** Only connected DOMs matter. */
  lemma {:induction false} OnlyConnected(doms: seq<Dom>, group: Id, ident: Id)
    ensures Members(Connected(doms), |Connected(doms)|, group) == Members(doms, |doms|, group)
    ensures GroupIn(Connected(doms), ident) == GroupIn(doms, ident)
  {
    if doms != [] {
      var init, d := doms[..|doms| - 1], doms[|doms| - 1];
      OnlyConnected(init, group, ident);
      assert doms == init + [d];
      MembersMore(init, [d], group);
      GroupMore(init, [d], ident);
      if d.connected {
        assert Connected(doms) == Connected(init) + [d];
        MembersMore(Connected(init), [d], group);
        GroupMore(Connected(init), [d], ident);
      } else {
        assert Connected(doms) == Connected(init);
        Unconnected(d, group, ident);
      }
    }
  }

  lemma ConnectedRecords(pending: seq<Request>, doms: seq<Dom>, other: seq<Dom>)
    requires Connected(doms) == Connected(other)
    ensures TargetsOf(pending, doms) == TargetsOf(pending, other)
  {
    forall g ensures Members(doms, |doms|, g) == Members(other, |other|, g) && (g in Groups(doms) <==> g in Groups(other)) {
      OnlyConnected(doms, g, g);
      OnlyConnected(other, g, g);
      GroupsHaveMembers(doms, g);
      GroupsHaveMembers(other, g);
    }
    SameRecords(pending, doms, pending, other);
    forall g ensures TargetOf(pending, doms, g) == TargetOf(pending, other, g) { ConnectedTarget(pending, doms, other, g); }
  }

  lemma ConnectedTarget(pending: seq<Request>, doms: seq<Dom>, other: seq<Dom>, group: Id)
    requires Connected(doms) == Connected(other)
    ensures TargetOf(pending, doms, group) == TargetOf(pending, other, group)
  {
    var order := Ordered(pending, |pending|);
    forall r | r in pending ensures AppliesIn(doms)(r, group) == AppliesIn(other)(r, group) {
      if Given(r.session) {
        OnlyConnected(doms, group, r.session.value);
        OnlyConnected(other, group, r.session.value);
      }
    }
    SameTarget(AppliesIn(doms), AppliesIn(other), pending, order, |order|, group);
  }

  function WithoutOf(b: Backend, id: Id): seq<Backend> {
    if b.id == id then [] else [b]
  }

  lemma WithoutCons(b: Backend, rest: seq<Backend>, id: Id)
    ensures WithoutBackend([b] + rest, id) == WithoutOf(b, id) + WithoutBackend(rest, id)
  {
    assert ([b] + rest)[1..] == rest;
  }

  lemma {:induction false} WithoutConcat(a: seq<Backend>, b: seq<Backend>, id: Id)
    ensures WithoutBackend(a + b, id) == WithoutBackend(a, id) + WithoutBackend(b, id)
  {
    if a == [] {
      assert a + b == b;
    } else {
      var first, rest := a[0], a[1..];
      assert a == [first] + rest;
      WithoutConcat(rest, b, id);
      Assoc([first], rest, b);
      WithoutCons(first, rest + b, id);
      WithoutCons(first, rest, id);
      Assoc(WithoutOf(first, id), WithoutBackend(rest, id), WithoutBackend(b, id));
    }
  }

  /** The backend shows a connected DOM. */
  ghost predicate ShowsDoms(backends: seq<Backend>, id: Id) {
    exists b, d :: b in backends && b.id == id && d in b.doms && d.connected
  }

  /** A backend without connected DOMs is not missed. */
  lemma {:induction false} NothingMissed(backends: seq<Backend>, id: Id)
    requires !ShowsDoms(backends, id)
    ensures Connected(AllDoms(WithoutBackend(backends, id))) == Connected(AllDoms(backends))
  {
    if backends != [] {
      var init, b := backends[..|backends| - 1], backends[|backends| - 1];
      assert backends == init + [b];
      assert forall x, d :: x in init && x.id == id && d in x.doms ==> x in backends && !d.connected;
      NothingMissed(init, id);
      WithoutLast(init, b, id);
      ConnectedConcat(AllDoms(init), b.doms);
      ConnectedConcat(AllDoms(WithoutBackend(init, id)), if b.id == id then [] else b.doms);
      if b.id == id { ConnectedMeans(b.doms); }
    }
  }

  lemma WithoutOne(b: Backend, id: Id)
    ensures WithoutBackend([b], id) == if b.id == id then [] else [b]
  {
    assert [b][1..] == [] && WithoutBackend([], id) == [];
  }

  lemma WithoutLast(init: seq<Backend>, b: Backend, id: Id)
    ensures AllDoms(WithoutBackend(init + [b], id)) == AllDoms(WithoutBackend(init, id)) + if b.id == id then [] else b.doms
    ensures AllDoms(init + [b]) == AllDoms(init) + b.doms
  {
    WithoutConcat(init, [b], id);
    WithoutOne(b, id);
    AllDomsOne(b);
    AllDomsConcat(init, [b]);
    AllDomsConcat(WithoutBackend(init, id), WithoutBackend([b], id));
  }

  /** How many members a group has. */
  function Size(doms: seq<Dom>, group: Id): nat {
    |Members(doms, |doms|, group)|
  }

  lemma SizeConcat(a: seq<Dom>, b: seq<Dom>, group: Id)
    ensures Size(a + b, group) == Size(a, group) + Size(b, group)
  {
    MembersMore(a, b, group);
  }

  lemma {:induction false} SizeMeans(doms: seq<Dom>, d: Dom)
    requires d in doms && d.connected
    ensures 0 < Size(doms, GroupOf(d))
  {
    var i :| 0 <= i < |doms| && doms[i] == d;
    assert IsGroup(doms, |doms|, GroupOf(d));
    MembersOfGroup(doms, |doms|, GroupOf(d));
  }

  /** The group of a connected DOM that goes with its backend gets smaller, and no group
      larger. */
  lemma {:induction false} GroupShrinks(backends: seq<Backend>, id: Id, group: Id)
    ensures Size(AllDoms(WithoutBackend(backends, id)), group) <= Size(AllDoms(backends), group)
    ensures (exists b, d :: b in backends && b.id == id && d in b.doms && d.connected && GroupOf(d) == group) ==>
              Size(AllDoms(WithoutBackend(backends, id)), group) < Size(AllDoms(backends), group)
  {
    if backends != [] {
      var init, last := backends[..|backends| - 1], backends[|backends| - 1];
      assert backends == init + [last];
      GroupShrinks(init, id, group);
      WithoutLast(init, last, id);
      SizeConcat(AllDoms(init), last.doms, group);
      SizeConcat(AllDoms(WithoutBackend(init, id)), if last.id == id then [] else last.doms, group);
      if b, d :| b in backends && b.id == id && d in b.doms && d.connected && GroupOf(d) == group {
        if b == last { SizeMeans(last.doms, d); } else { assert b in init; }
      }
    }
  }

  lemma SizeSorted(doms: seq<Dom>, group: Id)
    ensures |SortIds(Members(doms, |doms|, group))| == Size(doms, group)
  {
    var ids := Members(doms, |doms|, group);
    assert |multiset(SortIds(ids))| == |multiset(ids)|;
  }

  /** Losing a backend that shows connected DOMs makes some record wrong. */
  lemma LossChanges(pending: seq<Request>, backends: seq<Backend>, id: Id)
    requires ShowsDoms(backends, id)
    ensures TargetsOf(pending, AllDoms(WithoutBackend(backends, id))) != TargetsOf(pending, AllDoms(backends))
  {
    var b, d :| b in backends && b.id == id && d in b.doms && d.connected;
    var g, before, after := GroupOf(d), AllDoms(backends), AllDoms(WithoutBackend(backends, id));
    GroupShrinks(backends, id, g);
    SizeSorted(before, g);
    SizeSorted(after, g);
    GroupsHaveMembers(before, g);
    assert g in TargetsOf(pending, before);
    if g in TargetsOf(pending, after) { assert TargetsOf(pending, after)[g].1 != TargetsOf(pending, before)[g].1; }
  }

  lemma BackendGoneCurrent(s: State, backend: Id, orphans: seq<Id>)
    requires Current(s)
    ensures Current(BackendGone(s, backend, orphans)) <==> orphans != [] || !ShowsDoms(s.backends, backend)
  {
    if orphans != [] {
      var t := s.(backends := WithoutBackend(s.backends, backend));
      ReconcileCurrent(Finish(Sweep(t, orphans[..|orphans| - 1]), orphans[|orphans| - 1], Disconnect, Killed));
    } else if ShowsDoms(s.backends, backend) {
      LossChanges(s.pending, s.backends, backend);
    } else {
      NothingMissed(s.backends, backend);
      ConnectedRecords(s.pending, AllDoms(WithoutBackend(s.backends, backend)), AllDoms(s.backends));
    }
  }

  // ----------------------------------------------------------------------- every step

  /** The step leaves some studio recorded with what it should no longer be told: its
      deciding run goes with its client, or DOMs with a backend that orphans no run, or
      the map of backends comes out in an order that decides otherwise. */
  ghost predicate LeavesStale(s: State, e: Event) {
    match e
    case ClientLeft(id) => DecidesSomewhere(s.pending, AllDoms(s.backends), id)
    case BackendLost(backend, orphans) => orphans == [] && ShowsDoms(s.backends, backend)
    case Register(order) =>
      exists g :: g in Groups(AllDoms(s.backends))
        && TargetOf(s.pending, AllDoms(s.backends), g) != TargetOf(s.pending, AllDoms(order), g)
    case _ => false
  }

  /** These handlers end with a reconciliation. */
  lemma EndingCurrent(s: State, id: Id, outcome: Outcome)
    ensures Current(CompleteRun(s, id, outcome))
  {
    ReconcileCurrent(Retire(s, id, outcome));
  }

  lemma DoneCurrent(s: State, id: Id, success: bool)
    ensures Current(Next(s, Done(id, success)))
  {
    EndingCurrent(Forward(s, id, ExecutionDone(success)), id, if success then Finished else Errored);
  }

  lemma KilledCurrent(s: State, id: Id)
    ensures Current(Next(s, KilledBy(id)))
  {
    EndingCurrent(Forward(s, id, ExecutionKilled), id, Killed);
  }

  lemma SnapshotCurrent(s: State, backend: Id, doms: seq<Dom>)
    ensures Current(Next(s, SnapshotTaken(backend, doms)))
  {
    ReconcileCurrent(s.(backends := WithSnapshot(s.backends, backend, doms)));
  }

  lemma PinnedCurrent(t: State, dom: Id)
    ensures Current(Reconcile(t.(pending := Keep(PinnedTo(dom), t.pending))))
  {
    ReconcileCurrent(t.(pending := Keep(PinnedTo(dom), t.pending)));
  }

  lemma DomGoneCurrent(s: State, dom: Id, orphans: seq<Id>)
    ensures Current(DomGone(s, dom, orphans))
  {
    PinnedCurrent(Sweep(s, orphans), dom);
  }

  lemma NudgeCurrent(s: State)
    ensures Current(Next(s, Nudge))
  {
    ReconcileCurrent(s);
  }

  /** These touch neither queue nor snapshots nor records. */
  lemma QuietCurrent(s: State, e: Event)
    requires Current(s) && (e.Output? || e.FilesDone? || e.ClientSays?)
    ensures Current(Next(s, e))
  {
  }

  lemma SubmitCurrent(s: State, run: Request)
    requires Current(s)
    ensures Current(Next(s, Submit(run)))
  {
    if MatchOf(s.backends, run).None? { ReconcileCurrent(s.(pending := s.pending + [run])); }
  }

  lemma RegisterCurrent(s: State, order: seq<Backend>)
    requires Current(s) && Registers(s.backends, order)
    ensures Current(Next(s, Register(order))) <==> !LeavesStale(s, Register(order))
  {
    RegisterReorders(s.backends, order);
    ReorderedRecords(s.pending, AllDoms(s.backends), AllDoms(order));
  }

  /** Losses, departures and registrations apart, steps keep the records right. */
  lemma OthersCurrent(s: State, e: Event)
    requires Current(s) && !e.Register? && !e.BackendLost? && !e.ClientLeft?
    ensures Current(Next(s, e))
  {
    match e
    case Submit(run) => SubmitCurrent(s, run);
    case SnapshotTaken(backend, doms) => SnapshotCurrent(s, backend, doms);
    case Nudge => NudgeCurrent(s);
    case DomLost(dom, orphans) => DomGoneCurrent(s, dom, orphans);
    case Done(id, success) => DoneCurrent(s, id, success);
    case KilledBy(id) => KilledCurrent(s, id);
    case _ => QuietCurrent(s, e);
  }

  /** Every other step keeps the records those of the queue and the snapshots. */
  lemma CurrentIff(s: State, e: Event)
    requires QueueOk(s) && Current(s) && Enabled(s, e)
    ensures Current(Next(s, e)) <==> !LeavesStale(s, e)
  {
    match e
    case Register(order) => RegisterCurrent(s, order);
    case BackendLost(backend, orphans) => BackendGoneCurrent(s, backend, orphans);
    case ClientLeft(id) => ClientGoneCurrent(s, id);
    case _ => OthersCurrent(s, e);
  }

  /** Some step of the run left a studio behind. */
  ghost predicate EverStale(run: seq<Event>)
    requires Possible(run)
  {
    run != [] && (EverStale(run[..|run| - 1]) || LeavesStale(After(run[..|run| - 1]), run[|run| - 1]))
  }

  /** In a run without such a step every studio's record is right at any time. */
  lemma {:induction false} RunCurrent(run: seq<Event>)
    requires Possible(run) && !EverStale(run)
    ensures Current(After(run))
  {
    if run != [] {
      var before := run[..|run| - 1];
      RunCurrent(before);
      RunInv(before);
      CurrentIff(After(before), run[|run| - 1]);
    }
  }
}
