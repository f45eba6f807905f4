/** The joint hierarchy of the glTF reader in rodeo-client/src/runtime/mesh.rs: finding a
    joint's parent joint among its node's ancestors, putting parents before children, and
    renumbering everything that names a joint. */
module JointOrder {
  import opened Finite
  import opened Options

  datatype Result<+T> = Ok(value: T) | Cycle

  /** The k-th ancestor of n: its 0-th is itself, and a number without an entry has no
      parent. */
  function Chain(parents: seq<Option<nat>>, n: nat, k: nat): Option<nat> {
    if k == 0 then Some(n) else
      match Chain(parents, n, k - 1)
      case None => None
      case Some(p) => if p < |parents| then parents[p] else None
  }

  /** n's parent chain never ends: it runs into a loop. */
  ghost predicate Loops(parents: seq<Option<nat>>, n: nat) {
    forall k: nat :: Chain(parents, n, k).Some?
  }

  lemma {:induction false} ChainCompose(parents: seq<Option<nat>>, n: nat, k: nat, m: nat)
    ensures Chain(parents, n, k + m) ==
            match Chain(parents, n, k) case None => None case Some(p) => Chain(parents, p, m)
  {
    if m > 0 { ChainCompose(parents, n, k, m - 1); }
  }

  lemma ChainEnded(parents: seq<Option<nat>>, n: nat, k: nat, l: nat)
    requires k <= l && Chain(parents, n, k).None?
    ensures Chain(parents, n, l).None?
  {
    ChainCompose(parents, n, k, l - k);
  }

  // --------------------------------------------------------------- parent joints

  /** No proper ancestor up to the k-th is a joint, and the chain gets that far. */
  ghost predicate NoJointUpTo(parents: seq<Option<nat>>, joints: map<nat, nat>, n: nat, k: nat) {
    forall i: nat :: 0 < i <= k ==> Chain(parents, n, i).Some? && Chain(parents, n, i).value !in joints
  }

  /** j is the joint of n's nearest ancestor that has one. */
  ghost predicate NearestJoint(parents: seq<Option<nat>>, joints: map<nat, nat>, n: nat, j: nat) {
    exists k: nat :: NoJointUpTo(parents, joints, n, k) && Chain(parents, n, k + 1).Some?
      && Chain(parents, n, k + 1).value in joints && joints[Chain(parents, n, k + 1).value] == j
  }

  ghost predicate NoJointAbove(parents: seq<Option<nat>>, joints: map<nat, nat>, n: nat) {
    exists k: nat :: NoJointUpTo(parents, joints, n, k) && Chain(parents, n, k + 1).None?
  }

  ghost predicate LoopsWithoutJoint(parents: seq<Option<nat>>, joints: map<nat, nat>, n: nat) {
    forall k: nat :: NoJointUpTo(parents, joints, n, k)
  }

  /** visited holds the first k proper ancestors, all different. */
  ghost predicate Visited(parents: seq<Option<nat>>, n: nat, k: nat, visited: set<nat>) {
    && |visited| == k
    && (forall i: nat :: 0 < i <= k ==> Chain(parents, n, i).Some? && Chain(parents, n, i).value in visited)
    && (forall v :: v in visited ==> exists i: nat :: 0 < i <= k && Chain(parents, n, i) == Some(v))
  }

  lemma VisitNext(parents: seq<Option<nat>>, n: nat, k: nat, visited: set<nat>, p: nat)
    requires Visited(parents, n, k, visited) && Chain(parents, n, k + 1) == Some(p) && p !in visited
    ensures Visited(parents, n, k + 1, visited + {p})
  {
    forall v | v in visited + {p} ensures exists i: nat :: 0 < i <= k + 1 && Chain(parents, n, i) == Some(v) {
      if v in visited {
        var i: nat :| 0 < i <= k && Chain(parents, n, i) == Some(v);
      }
    }
  }

  lemma RevisitLoops(parents: seq<Option<nat>>, joints: map<nat, nat>, n: nat, k: nat, visited: set<nat>, p: nat)
    requires Visited(parents, n, k, visited) && NoJointUpTo(parents, joints, n, k)
    requires p in visited && Chain(parents, n, k + 1) == Some(p)
    ensures LoopsWithoutJoint(parents, joints, n)
  {
    var i: nat :| 0 < i <= k && Chain(parents, n, i) == Some(p);
    forall m: nat ensures NoJointUpTo(parents, joints, n, m) {
      RepeatForever(parents, joints, n, i, k + 1, m);
    }
  }

  lemma FoundJoint(parents: seq<Option<nat>>, joints: map<nat, nat>, n: nat, k: nat, p: nat)
    requires NoJointUpTo(parents, joints, n, k) && Chain(parents, n, k + 1) == Some(p) && p in joints
    ensures NearestJoint(parents, joints, n, joints[p]) && !LoopsWithoutJoint(parents, joints, n)
  {
    assert !NoJointUpTo(parents, joints, n, k + 1);
  }

  function Up(parents: seq<Option<nat>>, p: nat): Option<nat> {
    if p < |parents| then parents[p] else None
  }

  /** The walk from n stands before its ancestor number k + 1. */
  ghost predicate Walking(parents: seq<Option<nat>>, joints: map<nat, nat>, n: nat, k: nat, visited: set<nat>, ancestor: Option<nat>) {
    && Chain(parents, n, k + 1) == ancestor && NoJointUpTo(parents, joints, n, k) && Visited(parents, n, k, visited)
    && (ancestor.Some? ==> visited <= Below(|parents|))
  }

  lemma WalkStarts(parents: seq<Option<nat>>, joints: map<nat, nat>, n: nat)
    ensures Walking(parents, joints, n, 0, {}, Up(parents, n))
  {
    assert Chain(parents, n, 0) == Some(n);
  }

  lemma WalkNext(parents: seq<Option<nat>>, joints: map<nat, nat>, n: nat, k: nat, visited: set<nat>, p: nat)
    requires Walking(parents, joints, n, k, visited, Some(p)) && p !in visited && p !in joints
    ensures Walking(parents, joints, n, k + 1, visited + {p}, Up(parents, p))
    ensures |visited| < |visited + {p}| && |visited| <= |parents|
  {
    VisitNext(parents, n, k, visited, p);
    SubsetSize(visited, Below(|parents|));
    assert Chain(parents, n, k + 2) == Up(parents, p);
  }

  lemma WalkEnds(parents: seq<Option<nat>>, joints: map<nat, nat>, n: nat, k: nat, visited: set<nat>)
    requires Walking(parents, joints, n, k, visited, None)
    ensures NoJointAbove(parents, joints, n) && !LoopsWithoutJoint(parents, joints, n)
  {
    assert !NoJointUpTo(parents, joints, n, k + 1);
  }

  /** The ancestor walk: the nearest joint above, none, or a loop without one. The
      answer is each exactly when it is due. */
  method ParentJoint(parents: seq<Option<nat>>, joints: map<nat, nat>, node: nat) returns (r: Result<Option<nat>>)
    ensures r.Cycle? <==> LoopsWithoutJoint(parents, joints, node)
    ensures r.Ok? && r.value.Some? ==> NearestJoint(parents, joints, node, r.value.value)
    ensures r.Ok? && r.value.None? ==> NoJointAbove(parents, joints, node)
  {
    WalkStarts(parents, joints, node);
    var ancestor := if node < |parents| then parents[node] else None;
    var visited: set<nat> := {};
    ghost var k: nat := 0;
    while ancestor.Some?
      invariant Walking(parents, joints, node, k, visited, ancestor)
      decreases ancestor.Some?, |parents| + 1 - |visited|
    {
      var p := ancestor.value;
      if p in visited {
        RevisitLoops(parents, joints, node, k, visited, p);
        return Cycle;
      }
      if p in joints {
        FoundJoint(parents, joints, node, k, p);
        return Ok(Some(joints[p]));
      }
      WalkNext(parents, joints, node, k, visited, p);
      visited := visited + {p};
      ancestor := if p < |parents| then parents[p] else None;
      k := k + 1;
    }
    WalkEnds(parents, joints, node, k, visited);
    r := Ok(None);
  }

  /** A repeated ancestor repeats for ever. */
  lemma {:induction false} RepeatForever(parents: seq<Option<nat>>, joints: map<nat, nat>, n: nat, i: nat, j: nat, m: nat)
    requires 0 < i < j && Chain(parents, n, i) == Chain(parents, n, j)
    requires NoJointUpTo(parents, joints, n, j - 1)
    ensures NoJointUpTo(parents, joints, n, m)
  {
    if m >= j {
      RepeatForever(parents, joints, n, i, j, m - 1);
      ChainCompose(parents, n, i, m - j);
      ChainCompose(parents, n, j, m - j);
      assert Chain(parents, n, m) == Chain(parents, n, i + (m - j));
    }
  }

  // --------------------------------------------------------------------- ordering

  /** Joint parents are joints. */
  predicate Closed(parents: seq<Option<nat>>) {
    forall j :: 0 <= j < |parents| && parents[j].Some? ==> parents[j].value < |parents|
  }

  /** Some joint at or before position i of order is p. */
  ghost predicate PlacedBefore(order: seq<nat>, p: nat, i: nat) {
    exists k :: 0 <= k < i && k < |order| && order[k] == p
  }

  ghost predicate ParentsBefore(parents: seq<Option<nat>>, order: seq<nat>) {
    forall i :: 0 <= i < |order| && order[i] < |parents| && parents[order[i]].Some? ==>
      PlacedBefore(order, parents[order[i]].value, i)
  }

  /** order lists every joint once, parents before children. */
  ghost predicate Ordered(parents: seq<Option<nat>>, order: seq<nat>) {
    && |order| == |parents| && NoDuplicates(order)
    && (forall i :: 0 <= i < |order| ==> order[i] < |parents|)
    && (forall j :: 0 <= j < |parents| ==> j in order)
    && ParentsBefore(parents, order)
  }

  /** What the loop keeps. */
  ghost predicate Placing(parents: seq<Option<nat>>, placed: seq<bool>, order: seq<nat>) {
    && |placed| == |parents| && NoDuplicates(order)
    && (forall i :: 0 <= i < |order| ==> order[i] < |parents|)
    && (forall j :: 0 <= j < |parents| ==> (placed[j] <==> j in order))
    && ParentsBefore(parents, order)
  }

  /** j is not in done yet, and its parent, if any, is. */
  ghost predicate Ready(parents: seq<Option<nat>>, done: seq<nat>, j: nat) {
    j < |parents| && j !in done && (parents[j].Some? ==> parents[j].value in done)
  }

  /** j comes no later than q for a scan that goes on behind last and starts over at the
      end. */
  predicate NoLater(last: int, j: nat, q: nat) {
    if j > last then q <= last || j <= q else j <= q <= last
  }

  ghost function Last(done: seq<nat>): int {
    if done == [] then -1 else done[|done| - 1]
  }

  /** j is the first ready joint behind the one placed last, or the first of all when
      there is none behind it. */
  ghost predicate NextIs(parents: seq<Option<nat>>, done: seq<nat>, j: nat) {
    Ready(parents, done, j) && forall q: nat :: Ready(parents, done, q) ==> NoLater(Last(done), j, q)
  }

  /** Every joint was placed when its turn came: there is at most one such order. */
  ghost predicate InTurn(parents: seq<Option<nat>>, order: seq<nat>) {
    forall i :: 0 <= i < |order| ==> NextIs(parents, order[..i], order[i])
  }

  lemma InTurnBefore(parents: seq<Option<nat>>, order: seq<nat>, n: nat)
    requires InTurn(parents, order) && n < |order|
    ensures InTurn(parents, order[..n]) && NextIs(parents, order[..n], order[n])
  {
    forall i | 0 <= i < n ensures NextIs(parents, order[..n][..i], order[..n][i]) {
      assert order[..n][..i] == order[..i] && NextIs(parents, order[..i], order[i]);
    }
  }

  lemma NextUnique(parents: seq<Option<nat>>, done: seq<nat>, a: nat, b: nat)
    requires NextIs(parents, done, a) && NextIs(parents, done, b)
    ensures a == b
  {
  }

  lemma {:induction false} InTurnUnique(parents: seq<Option<nat>>, a: seq<nat>, b: seq<nat>)
    requires InTurn(parents, a) && InTurn(parents, b) && |a| == |b|
    ensures a == b
  {
    if a != [] {
      var n := |a| - 1;
      InTurnBefore(parents, a, n);
      InTurnBefore(parents, b, n);
      InTurnUnique(parents, a[..n], b[..n]);
      NextUnique(parents, a[..n], a[n], b[n]);
      assert a == a[..n] + [a[n]] && b == b[..n] + [b[n]];
    }
  }

  /** No joint behind the one placed last is ready. */
  ghost predicate Scanned(parents: seq<Option<nat>>, order: seq<nat>) {
    order == [] || forall q: nat :: Ready(parents, order, q) ==> q <= Last(order)
  }

  /** The pass that started with order0 placed has looked at the joints below j. */
  ghost predicate Scanning(parents: seq<Option<nat>>, order0: seq<nat>, order: seq<nat>, j: nat) {
    if |order| == |order0| then
      Scanned(parents, order) && forall q: nat :: Ready(parents, order, q) ==> j <= q
    else Last(order) < j && forall q: nat :: Ready(parents, order, q) ==> q <= Last(order) || j <= q
  }

  lemma TurnOf(parents: seq<Option<nat>>, order0: seq<nat>, order: seq<nat>, j: nat)
    requires Scanning(parents, order0, order, j) && Ready(parents, order, j) && InTurn(parents, order)
    requires |order0| <= |order|
    ensures InTurn(parents, order + [j]) && Scanning(parents, order0, order + [j], j + 1)
  {
    var more := order + [j];
    assert more[..|order|] == order;
    forall i | 0 <= i < |more| ensures NextIs(parents, more[..i], more[i]) {
      if i < |order| { assert NextIs(parents, order[..i], order[i]) && more[..i] == order[..i]; }
    }
  }

  lemma PlaceOne(parents: seq<Option<nat>>, placed: seq<bool>, order: seq<nat>, j: nat)
    requires Closed(parents) && Placing(parents, placed, order) && j < |parents| && !placed[j]
    requires parents[j].Some? ==> placed[parents[j].value]
    ensures Placing(parents, placed[j := true], order + [j])
  {
    var more := order + [j];
    forall i | 0 <= i < |more| && more[i] < |parents| && parents[more[i]].Some?
      ensures PlacedBefore(more, parents[more[i]].value, i)
    {
      var p := parents[more[i]].value;
      if i < |order| {
        assert PlacedBefore(order, p, i);
        var k :| 0 <= k < i && k < |order| && order[k] == p;
        assert more[k] == p;
      } else {
        assert p in order;
        var k :| 0 <= k < |order| && order[k] == p;
        assert more[k] == p;
      }
    }
  }

  /** Placed joints have chains that end: position i within i + 1 steps. */
  lemma {:induction false} PlacedEnds(parents: seq<Option<nat>>, order: seq<nat>, i: nat)
    requires ParentsBefore(parents, order) && i < |order|
    requires forall k :: 0 <= k < |order| ==> order[k] < |parents|
    ensures Chain(parents, order[i], i + 1).None?
  {
    var j := order[i];
    assert Chain(parents, j, 1) == parents[j] by { assert Chain(parents, j, 0) == Some(j); }
    if parents[j].None? {
      ChainEnded(parents, j, 1, i + 1);
    } else {
      assert PlacedBefore(order, parents[j].value, i);
      var k :| 0 <= k < i && k < |order| && order[k] == parents[j].value;
      PlacedEnds(parents, order, k);
      ChainCompose(parents, j, 1, k + 1);
      ChainEnded(parents, j, k + 2, i + 1);
    }
  }

  /** A joint stuck behind unplaced parents only has a chain that never ends. */
  lemma {:induction false} StuckLoops(parents: seq<Option<nat>>, stuck: set<nat>, j: nat, k: nat)
    requires j in stuck
    requires forall v :: v in stuck ==> v < |parents| && parents[v].Some? && parents[v].value in stuck
    ensures Chain(parents, j, k).Some? && Chain(parents, j, k).value in stuck
  {
    if k > 0 { StuckLoops(parents, stuck, j, k - 1); }
  }

  /** Every joint left has a parent that is left. */
  ghost predicate StuckBelow(parents: seq<Option<nat>>, placed: seq<bool>, j: nat)
    requires |placed| == |parents| && Closed(parents)
  {
    forall i :: 0 <= i < j && i < |parents| && !placed[i] ==> parents[i].Some? && !placed[parents[i].value]
  }

  lemma StuckLoop(parents: seq<Option<nat>>, placed: seq<bool>, order: seq<nat>)
    requires Closed(parents) && Placing(parents, placed, order) && |order| < |parents|
    requires StuckBelow(parents, placed, |parents|)
    ensures exists j: nat :: j < |parents| && Loops(parents, j)
  {
    var stuck := set v: nat | v < |parents| && !placed[v];
    var j := SomeMissing(order, |parents|);
    forall k: nat ensures Chain(parents, j, k).Some? { StuckLoops(parents, stuck, j, k); }
    assert Loops(parents, j);
  }

  /** The repeated passes. They end, with an order exactly when no joint's parent chain
      loops. */
  method OrderJoints(parents: seq<Option<nat>>) returns (r: Result<seq<nat>>)
    requires Closed(parents)
    ensures r.Ok? ==> Ordered(parents, r.value) && InTurn(parents, r.value)
    ensures r.Cycle? <==> exists j: nat :: j < |parents| && Loops(parents, j)
  {
    var order: seq<nat> := [];
    var placed := seq(|parents|, _ => false);
    while |order| < |parents|
      invariant Placing(parents, placed, order) && InTurn(parents, order) && Scanned(parents, order)
      decreases |parents| - |order|
    {
      var before := |order|;
      order, placed := Pass(parents, placed, order);
      if |order| == before {
        StuckLoop(parents, placed, order);
        return Cycle;
      }
    }
    AllPlaced(parents, placed, order);
    r := Ok(order);
  }

  lemma AllPlaced(parents: seq<Option<nat>>, placed: seq<bool>, order: seq<nat>)
    requires Placing(parents, placed, order) && |order| >= |parents|
    ensures Ordered(parents, order)
    ensures forall j: nat :: j < |parents| ==> !Loops(parents, j)
  {
    NoneMissing(order, |parents|);
    forall j: nat | j < |parents| ensures !Loops(parents, j) {
      assert j in order;
      var i :| 0 <= i < |order| && order[i] == j;
      PlacedEnds(parents, order, i);
    }
  }

  /** What a pass that started with order0 keeps on its way to joint j. */
  ghost predicate Passing(parents: seq<Option<nat>>, order0: seq<nat>, order: seq<nat>, placed: seq<bool>, j: nat)
    requires Closed(parents)
  {
    && Placing(parents, placed, order) && order0 <= order
    && InTurn(parents, order) && Scanning(parents, order0, order, j)
    && (|order| == |order0| ==> StuckBelow(parents, placed, j))
  }

  lemma PassPlaces(parents: seq<Option<nat>>, order0: seq<nat>, order: seq<nat>, placed: seq<bool>, j: nat)
    requires Closed(parents) && Passing(parents, order0, order, placed, j) && j < |parents|
    requires !placed[j] && (parents[j].Some? ==> placed[parents[j].value])
    ensures Passing(parents, order0, order + [j], placed[j := true], j + 1)
  {
    PlaceOne(parents, placed, order, j);
    TurnOf(parents, order0, order, j);
  }

  lemma PassSkips(parents: seq<Option<nat>>, order0: seq<nat>, order: seq<nat>, placed: seq<bool>, j: nat)
    requires Closed(parents) && Passing(parents, order0, order, placed, j) && j < |parents|
    requires placed[j] || (parents[j].Some? && !placed[parents[j].value])
    ensures Passing(parents, order0, order, placed, j + 1)
  {
    assert !Ready(parents, order, j);
  }

  /** One pass over the joints, placing each whose parent is placed when its turn comes.
      If it places none, every joint left has a parent that is left. */
  method Pass(parents: seq<Option<nat>>, placed0: seq<bool>, order0: seq<nat>)
    returns (order: seq<nat>, placed: seq<bool>)
    requires Closed(parents) && Placing(parents, placed0, order0)
    requires InTurn(parents, order0) && Scanned(parents, order0)
    ensures Placing(parents, placed, order) && order0 <= order
    ensures InTurn(parents, order) && Scanned(parents, order)
    ensures |order| == |order0| ==> StuckBelow(parents, placed, |parents|)
  {
    order, placed := order0, placed0;
    for j := 0 to |parents|
      invariant Passing(parents, order0, order, placed, j)
    {
      if !placed[j] && (parents[j].None? || placed[parents[j].value]) {
        PassPlaces(parents, order0, order, placed, j);
        placed := placed[j := true];
        order := order + [j];
      } else {
        PassSkips(parents, order0, order, placed, j);
      }
    }
  }

  // ------------------------------------------------------------------ renumbering

  /** index is order's inverse. */
  ghost predicate Inverts(index: seq<nat>, order: seq<nat>) {
    && |index| == |order|
    && (forall i :: 0 <= i < |order| ==> order[i] < |index| && index[order[i]] == i)
    && (forall j :: 0 <= j < |index| ==> index[j] < |order| && order[index[j]] == j)
  }

  method NewIndex(parents: seq<Option<nat>>, order: seq<nat>) returns (index: seq<nat>)
    requires Ordered(parents, order)
    ensures Inverts(index, order)
  {
    index := seq(|parents|, _ => 0);
    for i := 0 to |order|
      invariant |index| == |parents|
      invariant forall k :: 0 <= k < i ==> index[order[k]] == k
    {
      index := index[order[i] := i];
    }
    forall j | 0 <= j < |index| ensures index[j] < |order| && order[index[j]] == j {
      assert j in order;
      var k :| 0 <= k < |order| && order[k] == j;
      assert index[order[k]] == k;
    }
  }

  /** b is the joint placed at i, its parent renumbered. */
  ghost predicate Placed<T(!new)>(b: (Option<nat>, T), parents: seq<Option<nat>>, joints: seq<T>, order: seq<nat>, i: nat)
    requires i < |order| && order[i] < |parents| && order[i] < |joints|
  {
    && b.1 == joints[order[i]]
    && (b.0.Some? <==> parents[order[i]].Some?)
    && (b.0.Some? ==> b.0.value < i && order[b.0.value] == parents[order[i]].value)
  }

  /** The joints in their new order, parents renumbered. T is whatever else a joint
      carries. */
  method Reorder<T(!new)>(parents: seq<Option<nat>>, joints: seq<T>, order: seq<nat>, index: seq<nat>)
    returns (bones: seq<(Option<nat>, T)>)
    requires Closed(parents) && Ordered(parents, order) && Inverts(index, order) && |joints| == |parents|
    ensures |bones| == |joints|
    ensures forall i :: 0 <= i < |bones| ==> Placed(bones[i], parents, joints, order, i)
  {
    bones := [];
    for i := 0 to |order|
      invariant |bones| == i
      invariant forall k :: 0 <= k < i ==> Placed(bones[k], parents, joints, order, k)
    {
      var from := order[i];
      if parents[from].Some? {
        bones := bones + [(Some(index[parents[from].value]), joints[from])];
      } else {
        bones := bones + [(None, joints[from])];
      }
    }
  }
}
