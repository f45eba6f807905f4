/** How a studio's target depends on the order in which its DOMs are found
    (`derive_and_push_targets` in rodeo-cli/src/master/mod.rs): an identifier leads to the
    group of the last DOM that carries it, and the order is that of a hash map. */
module TargetOrder {
  import opened Options
  import opened Route
  import opened Scheduler
  import opened Targets

  /** d is a connected DOM that carries the identifier. */
  predicate Carrier(doms: seq<Dom>, ident: Id, d: Dom) {
    d in doms && d.connected && Carries(d, ident)
  }

  predicate InGroup(doms: seq<Dom>, ident: Id, group: Id) {
    exists d :: d in doms && Carrier(doms, ident, d) && GroupOf(d) == group
  }

  /** In some order of the DOMs the run drives the group ... */
  predicate Might(run: Request, doms: seq<Dom>, group: Id) {
    Drives(run) && (Given(run.session) ==> InGroup(doms, run.session.value, group))
  }

  /** ... and in every order. */
  predicate Sure(run: Request, doms: seq<Dom>, group: Id) {
    Might(run, doms, group)
    && (Given(run.session) ==> forall d :: d in doms && Carrier(doms, run.session.value, d) ==> GroupOf(d) == group)
  }

  ghost predicate Reordered(doms: seq<Dom>, other: seq<Dom>) {
    multiset(doms) == multiset(other)
  }

  lemma SameDoms(doms: seq<Dom>, other: seq<Dom>)
    requires Reordered(doms, other)
    ensures forall d :: d in doms <==> d in other
  {
    forall d ensures d in doms <==> d in other {
      assert d in doms <==> d in multiset(doms);
      assert d in other <==> d in multiset(other);
    }
  }

  // ------------------------------------------------------------------- last carriers

  /** The position an identifier's group comes from. */
  lemma {:induction false} LastCarrier(doms: seq<Dom>, n: nat, ident: Id) returns (k: Option<nat>)
    requires n <= |doms|
    ensures k.Some? ==> k.value < n && doms[k.value].connected && Carries(doms[k.value], ident)
                        && GroupFor(doms, n, ident) == Some(GroupOf(doms[k.value]))
    ensures forall j :: 0 <= j < n && (k.Some? ==> k.value < j) && doms[j].connected ==> !Carries(doms[j], ident)
    ensures k.None? ==> GroupFor(doms, n, ident).None?
  {
    if n == 0 { return None; }
    if doms[n - 1].connected && Carries(doms[n - 1], ident) { return Some(n - 1); }
    k := LastCarrier(doms, n - 1, ident);
  }

  /** An identifier leads to the group of some carrier, and nowhere only without any. */
  lemma GroupForMeans(doms: seq<Dom>, ident: Id)
    ensures GroupFor(doms, |doms|, ident).Some? ==> InGroup(doms, ident, GroupFor(doms, |doms|, ident).value)
    ensures GroupFor(doms, |doms|, ident).None? ==> forall d :: d in doms ==> !Carrier(doms, ident, d)
  {
    var k := LastCarrier(doms, |doms|, ident);
    if k.Some? { assert Carrier(doms, ident, doms[k.value]); }
  }

  lemma InGroupReordered(doms: seq<Dom>, other: seq<Dom>, ident: Id, group: Id)
    requires Reordered(doms, other) && InGroup(doms, ident, group)
    ensures InGroup(other, ident, group)
  {
    SameDoms(doms, other);
    var d :| d in doms && Carrier(doms, ident, d) && GroupOf(d) == group;
    assert d in other && Carrier(other, ident, d);
  }

  lemma SureApplies(run: Request, doms: seq<Dom>, other: seq<Dom>, group: Id)
    requires Reordered(doms, other) && Sure(run, doms, group)
    ensures Applies(run, other, group)
  {
    if Given(run.session) {
      var ident := run.session.value;
      InGroupReordered(doms, other, ident, group);
      GroupForMeans(other, ident);
      InGroupReordered(other, doms, ident, GroupFor(other, |other|, ident).value);
    }
  }

  lemma AppliesMight(run: Request, doms: seq<Dom>, other: seq<Dom>, group: Id)
    requires Reordered(doms, other) && Applies(run, other, group)
    ensures Might(run, doms, group)
  {
    if Given(run.session) {
      GroupForMeans(other, run.session.value);
      InGroupReordered(other, doms, run.session.value, group);
    }
  }

  // -------------------------------------------------------------------- who can decide

  function SureIn(doms: seq<Dom>): Applying {
    (run: Request, group: Id) => Sure(run, doms, group)
  }

  /** The target the group gets from the runs that drive it in every order. */
  function SureTarget(pending: seq<Request>, doms: seq<Dom>, group: Id): string {
    var order := Ordered(pending, |pending|);
    TargetAfter(SureIn(doms), ModeOf, pending, order, |order|, group)
  }

  /** With d last among the group's DOMs, own can lead to the group while other does not. */
  predicate Yields(doms: seq<Dom>, group: Id, d: Dom, own: Id, other: Id) {
    other != own
    && (Carries(d, other) ==> exists e :: e in doms && Carrier(doms, other, e) && GroupOf(e) != group && !Carries(e, own))
  }

  predicate YieldsFor(pending: seq<Request>, doms: seq<Dom>, group: Id, i: nat, d: Dom)
    requires i < |pending| && Given(pending[i].session)
  {
    forall j: nat :: j < |pending| && Before(pending, j, i) && Might(pending[j], doms, group) && Given(pending[j].session) ==>
      Yields(doms, group, d, pending[i].session.value, pending[j].session.value)
  }

  /** Run i decides the group's target in some order of the DOMs: it might drive the group,
      no run before it surely does, and the scoped ones before it can be led elsewhere. */
  predicate CanDecide(pending: seq<Request>, doms: seq<Dom>, group: Id, i: nat) {
    && i < |pending| && Might(pending[i], doms, group)
    && (forall j: nat :: j < |pending| && Before(pending, j, i) ==> !Sure(pending[j], doms, group))
    && (Given(pending[i].session) ==>
          exists d :: d in doms && Carrier(doms, pending[i].session.value, d) && GroupOf(d) == group && YieldsFor(pending, doms, group, i, d))
  }

  /** Who decides in an order can decide. */
  lemma DeciderCan(pending: seq<Request>, doms: seq<Dom>, other: seq<Dom>, group: Id, i: nat)
    requires Reordered(doms, other) && Earliest(pending, other, group, i)
    ensures CanDecide(pending, doms, group, i)
  {
    AppliesMight(pending[i], doms, other, group);
    forall j: nat | j < |pending| && Before(pending, j, i) ensures !Sure(pending[j], doms, group) {
      if Sure(pending[j], doms, group) { SureApplies(pending[j], doms, other, group); }
    }
    if Given(pending[i].session) {
      var own := pending[i].session.value;
      var k := LastCarrier(other, |other|, own);
      var d := other[k.value];
      SameDoms(doms, other);
      assert d in doms && Carrier(doms, own, d);
      forall j: nat | j < |pending| && Before(pending, j, i) && Might(pending[j], doms, group) && Given(pending[j].session)
        ensures Yields(doms, group, d, own, pending[j].session.value)
      {
        assert !Applies(pending[j], other, group);
        OtherYields(doms, other, group, own, k.value, pending[j].session.value);
      }
    }
  }

  lemma OtherYields(doms: seq<Dom>, other: seq<Dom>, group: Id, own: Id, k: nat, ident: Id)
    requires Reordered(doms, other) && k < |other| && other[k].connected && GroupOf(other[k]) == group
    requires forall j :: k < j < |other| && other[j].connected ==> !Carries(other[j], own)
    requires GroupFor(other, |other|, own) == Some(group) && GroupFor(other, |other|, ident) != Some(group)
    ensures Yields(doms, group, other[k], own, ident)
  {
    if Carries(other[k], ident) {
      var l := LastCarrier(other, |other|, ident);
      SameDoms(doms, other);
      var e := other[l.value];
      assert e in doms && Carrier(doms, ident, e) && GroupOf(e) != group && !Carries(e, own);
    }
  }

  // ------------------------------------------------------------------ orders that decide

  /** The DOMs of one rank, in order. */
  function Part(doms: seq<Dom>, rank: Dom -> nat, r: nat): seq<Dom> {
    if doms == [] then [] else
      Part(doms[..|doms| - 1], rank, r) + if rank(doms[|doms| - 1]) == r then [doms[|doms| - 1]] else []
  }

  /** The DOMs by rank. */
  function Arranged(doms: seq<Dom>, rank: Dom -> nat): seq<Dom> {
    Part(doms, rank, 0) + Part(doms, rank, 1) + Part(doms, rank, 2) + Part(doms, rank, 3)
  }

  lemma {:induction false} PartMembers(doms: seq<Dom>, rank: Dom -> nat, r: nat)
    ensures forall d :: d in Part(doms, rank, r) <==> d in doms && rank(d) == r
  {
    if doms != [] {
      PartMembers(doms[..|doms| - 1], rank, r);
      assert doms == doms[..|doms| - 1] + [doms[|doms| - 1]];
    }
  }

  lemma {:induction false} PartCount(doms: seq<Dom>, rank: Dom -> nat, r: nat, d: Dom)
    ensures multiset(Part(doms, rank, r))[d] == if rank(d) == r then multiset(doms)[d] else 0
  {
    if doms != [] {
      PartCount(doms[..|doms| - 1], rank, r, d);
      assert doms == doms[..|doms| - 1] + [doms[|doms| - 1]];
    }
  }

  lemma ArrangedReordered(doms: seq<Dom>, rank: Dom -> nat)
    requires forall d :: rank(d) < 4
    ensures Reordered(doms, Arranged(doms, rank))
  {
    forall d ensures multiset(Arranged(doms, rank))[d] == multiset(doms)[d] {
      PartCount(doms, rank, 0, d);
      PartCount(doms, rank, 1, d);
      PartCount(doms, rank, 2, d);
      PartCount(doms, rank, 3, d);
    }
  }

  lemma {:induction false} GroupForPrefix(a: seq<Dom>, b: seq<Dom>, n: nat, ident: Id)
    requires n <= |a|
    ensures GroupFor(a + b, n, ident) == GroupFor(a, n, ident)
  {
    if n > 0 { GroupForPrefix(a, b, n - 1, ident); }
  }

  lemma {:induction false} GroupForConcat(a: seq<Dom>, b: seq<Dom>, n: nat, ident: Id)
    requires n <= |b|
    ensures GroupFor(a + b, |a| + n, ident) == if GroupFor(b, n, ident).Some? then GroupFor(b, n, ident) else GroupFor(a, |a|, ident)
  {
    if n == 0 {
      GroupForPrefix(a, b, |a|, ident);
    } else {
      GroupForConcat(a, b, n - 1, ident);
    }
  }

  function GroupIn(doms: seq<Dom>, ident: Id): Option<Id> {
    GroupFor(doms, |doms|, ident)
  }

  /** The last rank with a carrier decides. */
  lemma GroupForArranged(doms: seq<Dom>, rank: Dom -> nat, ident: Id)
    ensures GroupIn(Arranged(doms, rank), ident) ==
            if GroupIn(Part(doms, rank, 3), ident).Some? then GroupIn(Part(doms, rank, 3), ident)
            else if GroupIn(Part(doms, rank, 2), ident).Some? then GroupIn(Part(doms, rank, 2), ident)
            else if GroupIn(Part(doms, rank, 1), ident).Some? then GroupIn(Part(doms, rank, 1), ident)
            else GroupIn(Part(doms, rank, 0), ident)
  {
    var p0, p1, p2, p3 := Part(doms, rank, 0), Part(doms, rank, 1), Part(doms, rank, 2), Part(doms, rank, 3);
    GroupForConcat(p0, p1, |p1|, ident);
    GroupForConcat(p0 + p1, p2, |p2|, ident);
    GroupForConcat(p0 + p1 + p2, p3, |p3|, ident);
  }

  /** A rank that holds a carrier leads to a carrier of that rank. */
  lemma PartLeads(doms: seq<Dom>, rank: Dom -> nat, r: nat, ident: Id)
    ensures GroupIn(Part(doms, rank, r), ident).Some? ==>
              exists d :: d in doms && Carrier(doms, ident, d) && rank(d) == r && GroupIn(Part(doms, rank, r), ident) == Some(GroupOf(d))
    ensures (exists d :: d in doms && Carrier(doms, ident, d) && rank(d) == r) ==> GroupIn(Part(doms, rank, r), ident).Some?
  {
    var part := Part(doms, rank, r);
    PartMembers(doms, rank, r);
    GroupForMeans(part, ident);
    if GroupIn(part, ident).Some? {
      var d :| d in part && Carrier(part, ident, d) && GroupOf(d) == GroupIn(part, ident).value;
      assert d in doms && Carrier(doms, ident, d) && rank(d) == r;
    }
    if d :| d in doms && Carrier(doms, ident, d) && rank(d) == r { assert Carrier(part, ident, d); }
  }

  /** The group's own DOMs first. */
  function OwnFirst(group: Id): Dom -> nat {
    (d: Dom) => if GroupOf(d) == group then 0 else 3
  }

  /** Then only the runs that drive it in every order drive it. */
  lemma OwnFirstSure(run: Request, doms: seq<Dom>, group: Id)
    ensures Applies(run, Arranged(doms, OwnFirst(group)), group) <==> Sure(run, doms, group)
  {
    var rank := OwnFirst(group);
    ArrangedReordered(doms, rank);
    if Sure(run, doms, group) {
      SureApplies(run, doms, Arranged(doms, rank), group);
    } else if Applies(run, Arranged(doms, rank), group) {
      AppliesMight(run, doms, Arranged(doms, rank), group);
      var ident := run.session.value;
      var d :| d in doms && Carrier(doms, ident, d) && GroupOf(d) != group;
      assert rank(d) == 3;
      GroupForArranged(doms, rank, ident);
      PartLeads(doms, rank, 3, ident);
      assert false;
    }
  }

  /** Runs that apply alike give the same target. */
  lemma {:induction false} SameTarget(a: Applying, b: Applying, pending: seq<Request>, order: seq<nat>, k: nat, group: Id)
    requires k <= |order| && Upto(order, |pending|)
    requires forall r :: r in pending ==> a(r, group) == b(r, group)
    ensures TargetAfter(a, ModeOf, pending, order, k, group) == TargetAfter(b, ModeOf, pending, order, k, group)
  {
    if k > 0 { SameTarget(a, b, pending, order, k - 1, group); }
  }

  lemma OwnFirstTarget(pending: seq<Request>, doms: seq<Dom>, group: Id)
    ensures TargetOf(pending, Arranged(doms, OwnFirst(group)), group) == SureTarget(pending, doms, group)
  {
    var other, order := Arranged(doms, OwnFirst(group)), Ordered(pending, |pending|);
    forall r | r in pending ensures AppliesIn(other)(r, group) == SureIn(doms)(r, group) { OwnFirstSure(r, doms, group); }
    SameTarget(AppliesIn(other), SureIn(doms), pending, order, |order|, group);
  }

  /** The group's DOMs first but for d, then those that carry own, then d, then the rest. */
  function DomLast(group: Id, own: Id, d: Dom): Dom -> nat {
    (x: Dom) => if x == d then 2 else if GroupOf(x) == group then 0 else if Carries(x, own) then 1 else 3
  }

  lemma DomLastLeads(doms: seq<Dom>, group: Id, own: Id, d: Dom)
    requires d in doms && Carrier(doms, own, d) && GroupOf(d) == group
    ensures GroupIn(Arranged(doms, DomLast(group, own, d)), own) == Some(group)
  {
    var rank := DomLast(group, own, d);
    GroupForArranged(doms, rank, own);
    PartLeads(doms, rank, 3, own);
    PartLeads(doms, rank, 2, own);
    assert rank(d) == 2;
  }

  lemma DomLastLeadsAway(doms: seq<Dom>, group: Id, own: Id, d: Dom, ident: Id)
    requires d in doms && GroupOf(d) == group && Yields(doms, group, d, own, ident)
    requires exists e :: e in doms && Carrier(doms, ident, e) && GroupOf(e) != group
    ensures GroupIn(Arranged(doms, DomLast(group, own, d)), ident) != Some(group)
  {
    var rank := DomLast(group, own, d);
    GroupForArranged(doms, rank, ident);
    PartLeads(doms, rank, 3, ident);
    PartLeads(doms, rank, 2, ident);
    PartLeads(doms, rank, 1, ident);
    if Carries(d, ident) {
      var e :| e in doms && Carrier(doms, ident, e) && GroupOf(e) != group && !Carries(e, own);
      assert rank(e) == 3;
    } else {
      var e :| e in doms && Carrier(doms, ident, e) && GroupOf(e) != group;
      assert rank(e) == 3 || rank(e) == 1;
    }
  }

  lemma BeforeTotal(pending: seq<Request>, i: nat, j: nat)
    requires i < |pending| && j < |pending| && i != j
    ensures Before(pending, i, j) || Before(pending, j, i)
  {
  }

  lemma OneEarliest(pending: seq<Request>, doms: seq<Dom>, group: Id, i: nat, j: nat)
    requires Earliest(pending, doms, group, i) && Earliest(pending, doms, group, j)
    ensures i == j
  {
  }

  /** Run i decides in an order in which it drives the group and none before it does. */
  lemma Decides(pending: seq<Request>, doms: seq<Dom>, group: Id, i: nat)
    requires i < |pending| && Applies(pending[i], doms, group)
    requires forall j: nat :: j < |pending| && Before(pending, j, i) ==> !Applies(pending[j], doms, group)
    ensures TargetOf(pending, doms, group) == ModeOf(pending[i])
  {
    forall j: nat | j < |pending| && j != i && Applies(pending[j], doms, group) ensures Before(pending, i, j) {
      BeforeTotal(pending, i, j);
    }
    assert Earliest(pending, doms, group, i);
    var k := TargetMeans(pending, doms, group);
    OneEarliest(pending, doms, group, i, k.value);
  }

  /** A run that can decide does, in some order. */
  lemma CanThenDoes(pending: seq<Request>, doms: seq<Dom>, group: Id, i: nat) returns (other: seq<Dom>)
    requires CanDecide(pending, doms, group, i)
    ensures Reordered(doms, other) && TargetOf(pending, other, group) == ModeOf(pending[i])
  {
    if !Given(pending[i].session) {
      other := Arranged(doms, OwnFirst(group));
      ArrangedReordered(doms, OwnFirst(group));
      OwnFirstSure(pending[i], doms, group);
      forall j: nat | j < |pending| && Before(pending, j, i) ensures !Applies(pending[j], other, group) {
        OwnFirstSure(pending[j], doms, group);
      }
    } else {
      var own := pending[i].session.value;
      var d :| d in doms && Carrier(doms, own, d) && GroupOf(d) == group && YieldsFor(pending, doms, group, i, d);
      other := Arranged(doms, DomLast(group, own, d));
      ArrangedReordered(doms, DomLast(group, own, d));
      DomLastLeads(doms, group, own, d);
      forall j: nat | j < |pending| && Before(pending, j, i) ensures !Applies(pending[j], other, group) {
        EarlierAway(pending, doms, group, i, j, d);
      }
    }
    Decides(pending, other, group, i);
  }

  lemma EarlierAway(pending: seq<Request>, doms: seq<Dom>, group: Id, i: nat, j: nat, d: Dom)
    requires i < |pending| && Given(pending[i].session) && j < |pending| && Before(pending, j, i)
    requires d in doms && GroupOf(d) == group && YieldsFor(pending, doms, group, i, d) && !Sure(pending[j], doms, group)
    ensures !Applies(pending[j], Arranged(doms, DomLast(group, pending[i].session.value, d)), group)
  {
    var own := pending[i].session.value;
    var other := Arranged(doms, DomLast(group, own, d));
    if Applies(pending[j], other, group) {
      ArrangedReordered(doms, DomLast(group, own, d));
      AppliesMight(pending[j], doms, other, group);
      var ident := pending[j].session.value;
      assert Yields(doms, group, d, own, ident);
      DomLastLeadsAway(doms, group, own, d, ident);
    }
  }

  // ----------------------------------------------------------------------- the condition

  /** Whatever decides, the mode is the same. */
  predicate OneMode(pending: seq<Request>, doms: seq<Dom>, group: Id) {
    forall i: nat :: i < |pending| && CanDecide(pending, doms, group, i) ==> ModeOf(pending[i]) == SureTarget(pending, doms, group)
  }

  lemma OneModeKeeps(pending: seq<Request>, doms: seq<Dom>, other: seq<Dom>, group: Id)
    requires Reordered(doms, other) && OneMode(pending, doms, group)
    ensures TargetOf(pending, other, group) == SureTarget(pending, doms, group)
  {
    var i := TargetMeans(pending, other, group);
    if i.Some? {
      DeciderCan(pending, doms, other, group, i.value);
    } else {
      var order := Ordered(pending, |pending|);
      forall r | r in pending ensures AppliesIn(other)(r, group) == SureIn(doms)(r, group) {
        if Sure(r, doms, group) { SureApplies(r, doms, other, group); }
        var j :| 0 <= j < |pending| && pending[j] == r;
      }
      SameTarget(AppliesIn(other), SureIn(doms), pending, order, |order|, group);
    }
  }

  /** A group's target is the same in every order of the DOMs exactly when every run that
      can decide it has the mode the group gets from the runs that always drive it. */
  lemma TargetStableIff(pending: seq<Request>, doms: seq<Dom>, group: Id)
    ensures (forall other :: Reordered(doms, other) ==> TargetOf(pending, other, group) == TargetOf(pending, doms, group))
            <==> OneMode(pending, doms, group)
  {
    if OneMode(pending, doms, group) {
      OneModeKeeps(pending, doms, doms, group);
      forall other | Reordered(doms, other) ensures TargetOf(pending, other, group) == TargetOf(pending, doms, group) {
        OneModeKeeps(pending, doms, other, group);
      }
    }
    if forall other :: Reordered(doms, other) ==> TargetOf(pending, other, group) == TargetOf(pending, doms, group) {
      ArrangedReordered(doms, OwnFirst(group));
      OwnFirstTarget(pending, doms, group);
      forall i: nat | i < |pending| && CanDecide(pending, doms, group, i)
        ensures ModeOf(pending[i]) == SureTarget(pending, doms, group)
      {
        var other := CanThenDoes(pending, doms, group, i);
      }
    }
  }

  /** All connected DOMs that carry the identifier are of one group. */
  predicate OneGroup(doms: seq<Dom>, ident: Id) {
    forall d, e :: d in doms && e in doms && Carrier(doms, ident, d) && Carrier(doms, ident, e) ==> GroupOf(d) == GroupOf(e)
  }

  /** In particular when every scoped run that can decide is scoped to one group. */
  lemma OneGroupStable(pending: seq<Request>, doms: seq<Dom>, group: Id)
    requires forall i: nat :: CanDecide(pending, doms, group, i) && Given(pending[i].session) ==> OneGroup(doms, pending[i].session.value)
    ensures OneMode(pending, doms, group)
  {
    forall i: nat | i < |pending| && CanDecide(pending, doms, group, i)
      ensures ModeOf(pending[i]) == SureTarget(pending, doms, group)
    {
      assert Sure(pending[i], doms, group);
      var other := Arranged(doms, OwnFirst(group));
      OwnFirstTarget(pending, doms, group);
      OwnFirstSure(pending[i], doms, group);
      forall j: nat | j < |pending| && Before(pending, j, i) ensures !Applies(pending[j], other, group) {
        OwnFirstSure(pending[j], doms, group);
      }
      Decides(pending, other, group, i);
    }
  }

  // ------------------------------------------------------------------------- the record

  lemma {:induction false} MembersPrefix(a: seq<Dom>, b: seq<Dom>, n: nat, group: Id)
    requires n <= |a|
    ensures Members(a + b, n, group) == Members(a, n, group)
  {
    if n > 0 { MembersPrefix(a, b, n - 1, group); }
  }

  lemma {:induction false} MembersConcat(a: seq<Dom>, b: seq<Dom>, n: nat, group: Id)
    requires n <= |b|
    ensures Members(a + b, |a| + n, group) == Members(a, |a|, group) + Members(b, n, group)
  {
    if n == 0 {
      MembersPrefix(a, b, |a|, group);
    } else {
      MembersConcat(a, b, n - 1, group);
    }
  }

  lemma TakenOut<T>(items: seq<T>, k: nat)
    requires k < |items|
    ensures items == items[..k] + [items[k]] + items[k + 1..]
    ensures multiset(items) == multiset(items[..k] + items[k + 1..]) + multiset{items[k]}
  {
    assert items == items[..k] + [items[k]] + items[k + 1..];
  }

  lemma Cancel<T(!new)>(a: multiset<T>, b: multiset<T>, x: T)
    requires a + multiset{x} == b + multiset{x}
    ensures a == b
  {
    forall y ensures a[y] == b[y] { assert (a + multiset{x})[y] == (b + multiset{x})[y]; }
  }

  /** The last item found elsewhere in another order, and what is around it there. */
  lemma LastElsewhere<T(!new)>(items: seq<T>, other: seq<T>) returns (a: seq<T>, b: seq<T>)
    requires multiset(items) == multiset(other) && items != []
    ensures other == a + [items[|items| - 1]] + b && multiset(items[..|items| - 1]) == multiset(a + b)
  {
    var n := |items| - 1;
    assert items[n] in multiset(items);
    var k :| 0 <= k < |other| && other[k] == items[n];
    a, b := other[..k], other[k + 1..];
    TakenOut(other, k);
    TakenOut(items, n);
    assert items[..n] + items[n + 1..] == items[..n];
    Cancel(multiset(items[..n]), multiset(a + b), items[n]);
  }

  function MemberBag(doms: seq<Dom>, group: Id): multiset<Id> {
    multiset(Members(doms, |doms|, group))
  }

  lemma BagConcat(a: seq<Dom>, b: seq<Dom>, group: Id)
    ensures MemberBag(a + b, group) == MemberBag(a, group) + MemberBag(b, group)
  {
    MembersConcat(a, b, |b|, group);
  }

  lemma BagAround(a: seq<Dom>, d: Dom, b: seq<Dom>, group: Id)
    ensures MemberBag(a + [d] + b, group) == MemberBag(a + b, group) + MemberBag([d], group)
  {
    BagConcat(a, [d], group);
    BagConcat(a + [d], b, group);
    BagConcat(a, b, group);
  }

  lemma {:induction false} MembersReordered(doms: seq<Dom>, other: seq<Dom>, group: Id)
    requires Reordered(doms, other)
    ensures MemberBag(doms, group) == MemberBag(other, group)
  {
    if doms == [] {
      assert |multiset(other)| == |other|;
    } else {
      var init, d := doms[..|doms| - 1], doms[|doms| - 1];
      var a, b := LastElsewhere(doms, other);
      MembersReordered(init, a + b, group);
      assert doms == init + [d];
      BagConcat(init, [d], group);
      BagAround(a, d, b, group);
    }
  }

  /** So a group's whole record is: its list of DOMs never depends on the order. */
  lemma RecordStableIff(pending: seq<Request>, doms: seq<Dom>, group: Id)
    ensures (forall other :: Reordered(doms, other) ==> Record(pending, other, group) == Record(pending, doms, group))
            <==> OneMode(pending, doms, group)
  {
    TargetStableIff(pending, doms, group);
    forall other | Reordered(doms, other)
      ensures Record(pending, other, group) == Record(pending, doms, group) <==> TargetOf(pending, other, group) == TargetOf(pending, doms, group)
    {
      MembersReordered(doms, other, group);
      RecordStable(pending, doms, other, group);
    }
  }

  // -------------------------------------------------------------------------- an example

  const SHOWN := Dom("d1", true, Some("s"), Some("A"), Some("edit"), Some("edit"), 0)
  const NEW := Dom("d2", true, Some("s"), None, Some("edit"), Some("edit"), 0)
  const RUN := Request("r", Handle(0, false), Spec(Some(RunMode), None, None), Some("s"), None, 0)

  /** Two DOMs of one session, the second without its studio yet, and a run scoped to the
      session: whichever is found last gets the run's mode for its group. */
  lemma OrderDecides()
    ensures TargetOf([RUN], [SHOWN, NEW], "s") == TargetOf([RUN], [NEW, SHOWN], "A") == "run"
    ensures TargetOf([RUN], [SHOWN, NEW], "A") == TargetOf([RUN], [NEW, SHOWN], "s") == ""
  {
    GroupOfLast(SHOWN, NEW);
    GroupOfLast(NEW, SHOWN);
    assert Drives(RUN) && ModeOf(RUN) == "run";
    SoleRun(RUN, [SHOWN, NEW], "s");
    SoleRun(RUN, [SHOWN, NEW], "A");
    SoleRun(RUN, [NEW, SHOWN], "s");
    SoleRun(RUN, [NEW, SHOWN], "A");
  }

  lemma GroupOfLast(d: Dom, e: Dom)
    requires e.connected && Carries(e, "s")
    ensures GroupFor([d, e], 2, "s") == Some(GroupOf(e))
  {
  }

  const ANYWHERE := RUN.(id := "q", session := None, createdAt := 1)

  /** One group is not needed when whoever else decides has the same mode. */
  lemma TwoGroupsCanAgree()
    ensures CanDecide([RUN, ANYWHERE], [SHOWN, NEW], "A", 0) && !OneGroup([SHOWN, NEW], "s")
    ensures OneMode([RUN, ANYWHERE], [SHOWN, NEW], "A")
  {
    var pending, doms := [RUN, ANYWHERE], [SHOWN, NEW];
    assert Carrier(doms, "s", SHOWN) && Carrier(doms, "s", NEW) && GroupOf(SHOWN) != GroupOf(NEW);
    assert Might(RUN, doms, "A") && YieldsFor(pending, doms, "A", 0, SHOWN);
    forall other ensures TargetOf(pending, other, "A") == "run" {
      var i := TargetMeans(pending, other, "A");
      assert Applies(pending[1], other, "A");
    }
    TargetStableIff(pending, doms, "A");
  }

  lemma SoleRun(run: Request, doms: seq<Dom>, group: Id)
    requires Drives(run) && Given(run.session)
    ensures TargetOf([run], doms, group) == if GroupFor(doms, |doms|, run.session.value) == Some(group) then ModeOf(run) else ""
  {
    var i := TargetMeans([run], doms, group);
    assert [run][0] == run;
    if i.Some? { assert i.value == 0; }
  }
}
