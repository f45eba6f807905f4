/** Deriving each studio's target mode from the queue and telling its DOMs
    (`derive_and_push_targets` in rodeo-cli/src/master/mod.rs). */
module Targets {
  import opened Options
  import opened Route
  import opened Scheduler

  // ------------------------------------------------------------------------- groups

  predicate Given(ident: Option<Id>) {
    ident.Some? && ident.value != ""
  }

  /** The studio a DOM counts to: its studio, else its session, else itself. */
  function GroupOf(d: Dom): Id {
    if Given(d.studio) then d.studio.value else if Given(d.session) then d.session.value else d.id
  }

  predicate Carries(d: Dom, ident: Id) {
    ident != "" && (d.studio == Some(ident) || d.session == Some(ident))
  }

  /** The connected DOMs of a group among the first n, by their key. */
  function MembersBy(key: Dom -> Id, doms: seq<Dom>, n: nat, group: Id): seq<Id>
    requires n <= |doms|
  {
    if n == 0 then [] else
      MembersBy(key, doms, n - 1, group) + if doms[n - 1].connected && key(doms[n - 1]) == group then [doms[n - 1].id] else []
  }

  function Members(doms: seq<Dom>, n: nat, group: Id): seq<Id>
    requires n <= |doms|
  {
    MembersBy(GroupOf, doms, n, group)
  }

  predicate IsGroup(doms: seq<Dom>, n: nat, group: Id)
    requires n <= |doms|
  {
    exists i :: 0 <= i < n && doms[i].connected && GroupOf(doms[i]) == group
  }

  /** The group an identifier leads to: that of the last connected DOM carrying it. */
  function GroupFor(doms: seq<Dom>, n: nat, ident: Id): Option<Id>
    requires n <= |doms|
  {
    if n == 0 then None
    else if doms[n - 1].connected && Carries(doms[n - 1], ident) then Some(GroupOf(doms[n - 1]))
    else GroupFor(doms, n - 1, ident)
  }

  lemma {:induction false} MembersOfGroup(doms: seq<Dom>, n: nat, group: Id)
    requires n <= |doms|
    ensures IsGroup(doms, n, group) <==> Members(doms, n, group) != []
  {
    if n > 0 { MembersOfGroup(doms, n - 1, group); }
  }

  lemma {:induction false} GroupForIsGroup(doms: seq<Dom>, n: nat, ident: Id)
    requires n <= |doms| && GroupFor(doms, n, ident).Some?
    ensures IsGroup(doms, n, GroupFor(doms, n, ident).value)
  {
    if !(doms[n - 1].connected && Carries(doms[n - 1], ident)) { GroupForIsGroup(doms, n - 1, ident); }
  }

  // ------------------------------------------------------------------------- targets

  /** A queued run that drives a studio into a mode: unpinned, and routed to run, test or
      play. */
  predicate Drives(run: Request) {
    run.domId.None? && !IsEmpty(run.route) && Resolve(run.route).Some? && Resolve(run.route).value.mode != EditMode
  }

  function ModeOf(run: Request): (mode: string)
    ensures Drives(run) ==> mode != ""
  {
    if Resolve(run.route).Some? then ModeName(Resolve(run.route).value.mode) else ""
  }

  /** It drives this group: every group, unless it is scoped to a studio. */
  predicate Applies(run: Request, doms: seq<Dom>, group: Id) {
    Drives(run) && (Given(run.session) ==> GroupFor(doms, |doms|, run.session.value) == Some(group))
  }

  /** Run i goes before run j: created earlier, or queued earlier at the same time. */
  predicate Before(pending: seq<Request>, i: nat, j: nat)
    requires i < |pending| && j < |pending|
  {
    pending[i].createdAt < pending[j].createdAt || (pending[i].createdAt == pending[j].createdAt && i < j)
  }

  /** The stable sort by creation: positions in the queue. */
  function Insert(pending: seq<Request>, order: seq<nat>, i: nat): (r: seq<nat>)
    requires i < |pending| && Upto(order, i)
    ensures Upto(r, i + 1)
  {
    if order == [] then [i]
    else if pending[order[|order| - 1]].createdAt <= pending[i].createdAt then order + [i]
    else Insert(pending, order[..|order| - 1], i) + [order[|order| - 1]]
  }

  predicate Upto(order: seq<nat>, n: nat) {
    forall k :: 0 <= k < |order| ==> order[k] < n
  }

  predicate Increasing(pending: seq<Request>, order: seq<nat>)
    requires Upto(order, |pending|)
  {
    forall a, b :: 0 <= a < b < |order| ==> Before(pending, order[a], order[b])
  }

  lemma {:induction false} InsertMembers(pending: seq<Request>, order: seq<nat>, i: nat)
    requires i < |pending| && Upto(order, i)
    ensures forall x :: x in Insert(pending, order, i) <==> x in order || x == i
  {
    if order != [] && !(pending[order[|order| - 1]].createdAt <= pending[i].createdAt) {
      InsertMembers(pending, order[..|order| - 1], i);
      assert order == order[..|order| - 1] + [order[|order| - 1]];
    }
  }

  lemma {:induction false} InsertSorted(pending: seq<Request>, order: seq<nat>, i: nat)
    requires i < |pending| && Upto(order, i) && Increasing(pending, order)
    ensures Increasing(pending, Insert(pending, order, i))
  {
    if order != [] {
      var init, last := order[..|order| - 1], order[|order| - 1];
      if pending[last].createdAt <= pending[i].createdAt {
        forall a | 0 <= a < |order| ensures Before(pending, order[a], i) {
          if a < |order| - 1 { assert Before(pending, order[a], last); }
        }
      } else {
        InsertSorted(pending, init, i);
        InsertMembers(pending, init, i);
        var rest := Insert(pending, init, i);
        forall a | 0 <= a < |rest| ensures Before(pending, rest[a], last) {
          assert rest[a] in rest;
          if rest[a] != i {
            var k :| 0 <= k < |init| && init[k] == rest[a];
            assert Before(pending, order[k], order[|order| - 1]);
          }
        }
      }
    }
  }

  function Ordered(pending: seq<Request>, n: nat): (order: seq<nat>)
    requires n <= |pending|
    ensures Upto(order, n) && Increasing(pending, order) && forall i: nat :: i < n ==> i in order
  {
    if n == 0 then [] else
      var before := Ordered(pending, n - 1);
      InsertSorted(pending, before, n - 1);
      InsertMembers(pending, before, n - 1);
      Insert(pending, before, n - 1)
  }

  type Applying = (Request, Id) -> bool

  function AppliesIn(doms: seq<Dom>): Applying {
    (run: Request, group: Id) => Applies(run, doms, group)
  }

  /** The target after the first k runs of the order: set once, then kept. */
  function TargetAfter(applies: Applying, mode: Request -> string, pending: seq<Request>, order: seq<nat>, k: nat, group: Id): string
    requires k <= |order| && Upto(order, |pending|)
  {
    if k == 0 then "" else
      var before := TargetAfter(applies, mode, pending, order, k - 1, group);
      var run := pending[order[k - 1]];
      if before == "" && applies(run, group) then mode(run) else before
  }

  function TargetOf(pending: seq<Request>, doms: seq<Dom>, group: Id): string {
    var order := Ordered(pending, |pending|);
    TargetAfter(AppliesIn(doms), ModeOf, pending, order, |order|, group)
  }

  /** Run i sets the group's target: it applies and goes before all others that do. */
  ghost predicate Earliest(pending: seq<Request>, doms: seq<Dom>, group: Id, i: nat) {
    i < |pending| && Applies(pending[i], doms, group)
    && forall j: nat :: j < |pending| && j != i && Applies(pending[j], doms, group) ==> Before(pending, i, j)
  }

  lemma {:induction false} TargetAfterMeans(applies: Applying, mode: Request -> string, pending: seq<Request>, order: seq<nat>, k: nat, group: Id)
    returns (a: Option<nat>)
    requires k <= |order| && Upto(order, |pending|)
    requires forall r :: applies(r, group) ==> mode(r) != ""
    ensures a.Some? ==> a.value < k && applies(pending[order[a.value]], group)
                        && TargetAfter(applies, mode, pending, order, k, group) == mode(pending[order[a.value]])
    ensures forall b :: 0 <= b < k && (a.Some? ==> b < a.value) ==> !applies(pending[order[b]], group)
    ensures a.None? ==> TargetAfter(applies, mode, pending, order, k, group) == ""
  {
    if k == 0 { return None; }
    a := TargetAfterMeans(applies, mode, pending, order, k - 1, group);
    if a.None? && applies(pending[order[k - 1]], group) { a := Some(k - 1); }
  }

  /** A group's target is the mode of its earliest driving run, ties going to the one
      queued first; without any it is empty. */
  lemma TargetMeans(pending: seq<Request>, doms: seq<Dom>, group: Id) returns (i: Option<nat>)
    ensures i.Some? ==> Earliest(pending, doms, group, i.value) && TargetOf(pending, doms, group) == ModeOf(pending[i.value])
    ensures i.None? ==> TargetOf(pending, doms, group) == "" && forall j :: 0 <= j < |pending| ==> !Applies(pending[j], doms, group)
  {
    var order := Ordered(pending, |pending|);
    var a := TargetAfterMeans(AppliesIn(doms), ModeOf, pending, order, |order|, group);
    i := if a.Some? then Some(order[a.value]) else None;
    forall j: nat | j < |pending| && Applies(pending[j], doms, group)
      ensures i.Some? && (j != i.value ==> Before(pending, i.value, j))
    {
      assert j in order;
      var b :| 0 <= b < |order| && order[b] == j;
    }
  }

  // ------------------------------------------------------------------------- sorting

  /** Strings in byte order. */
  predicate LexLe(a: string, b: string) {
    a == "" || (b != "" && (a[0] < b[0] || (a[0] == b[0] && LexLe(a[1..], b[1..]))))
  }

  lemma {:induction false} LexTotal(a: string, b: string)
    ensures LexLe(a, b) || LexLe(b, a)
  {
    if a != "" && b != "" && a[0] == b[0] { LexTotal(a[1..], b[1..]); }
  }

  lemma {:induction false} LexTransitive(a: string, b: string, c: string)
    requires LexLe(a, b) && LexLe(b, c)
    ensures LexLe(a, c)
  {
    if a != "" && a[0] == b[0] == c[0] { LexTransitive(a[1..], b[1..], c[1..]); }
  }

  lemma {:induction false} LexAntisymmetric(a: string, b: string)
    requires LexLe(a, b) && LexLe(b, a)
    ensures a == b
  {
    if a != "" {
      LexAntisymmetric(a[1..], b[1..]);
      assert a == [a[0]] + a[1..] && b == [b[0]] + b[1..];
    }
  }

  ghost predicate Sorted(ids: seq<Id>) {
    forall i, j :: 0 <= i < j < |ids| ==> LexLe(ids[i], ids[j])
  }

  function InsertId(ids: seq<Id>, x: Id): (r: seq<Id>)
    ensures multiset(r) == multiset(ids) + multiset{x}
  {
    if ids == [] then [x]
    else
      assert ids == ids[..|ids| - 1] + [ids[|ids| - 1]];
      if LexLe(ids[|ids| - 1], x) then ids + [x] else InsertId(ids[..|ids| - 1], x) + [ids[|ids| - 1]]
  }

  function SortIds(ids: seq<Id>): (r: seq<Id>)
    ensures multiset(r) == multiset(ids)
  {
    if ids == [] then [] else
      assert ids == ids[..|ids| - 1] + [ids[|ids| - 1]];
      InsertId(SortIds(ids[..|ids| - 1]), ids[|ids| - 1])
  }

  lemma {:induction false} InsertIdSorted(ids: seq<Id>, x: Id)
    requires Sorted(ids)
    ensures Sorted(InsertId(ids, x))
  {
    if ids != [] {
      var init, last := ids[..|ids| - 1], ids[|ids| - 1];
      if LexLe(last, x) {
        forall i | 0 <= i < |ids| ensures LexLe(ids[i], x) {
          if i < |ids| - 1 { LexTransitive(ids[i], last, x); }
        }
      } else {
        InsertIdSorted(init, x);
        LexTotal(last, x);
        var r := InsertId(init, x);
        forall i | 0 <= i < |r| ensures LexLe(r[i], last) {
          assert r[i] in multiset(r);
          assert r[i] in multiset(init) || r[i] == x;
        }
      }
    }
  }

  lemma {:induction false} SortIdsSorted(ids: seq<Id>)
    ensures Sorted(SortIds(ids))
  {
    if ids != [] {
      SortIdsSorted(ids[..|ids| - 1]);
      InsertIdSorted(SortIds(ids[..|ids| - 1]), ids[|ids| - 1]);
    }
  }

  lemma SortedLast(a: seq<Id>, b: seq<Id>)
    requires Sorted(a) && Sorted(b) && multiset(a) == multiset(b) && a != [] && b != []
    ensures a[|a| - 1] == b[|b| - 1]
  {
    var x, y := a[|a| - 1], b[|b| - 1];
    assert x in multiset(b) && y in multiset(a);
    var i :| 0 <= i < |b| && b[i] == x;
    var j :| 0 <= j < |a| && a[j] == y;
    if x != y { LexAntisymmetric(x, y); }
  }

  lemma InitMultiset(a: seq<Id>)
    requires a != []
    ensures multiset(a[..|a| - 1]) == multiset(a) - multiset{a[|a| - 1]}
  {
    assert a == a[..|a| - 1] + [a[|a| - 1]];
  }

  lemma SameInit(a: seq<Id>, b: seq<Id>)
    requires a != [] && b != [] && a[|a| - 1] == b[|b| - 1] && multiset(a) == multiset(b)
    ensures multiset(a[..|a| - 1]) == multiset(b[..|b| - 1])
  {
    InitMultiset(a);
    InitMultiset(b);
  }

  lemma SameSize(a: seq<Id>, b: seq<Id>)
    requires multiset(a) == multiset(b)
    ensures |a| == |b|
  {
    assert |multiset(a)| == |a| && |multiset(b)| == |b|;
  }

  /** The sorted list does not depend on the order the DOMs were found in. */
  lemma {:induction false} SortedUnique(a: seq<Id>, b: seq<Id>)
    requires Sorted(a) && Sorted(b) && multiset(a) == multiset(b)
    ensures a == b
  {
    SameSize(a, b);
    if a != [] {
      SortedLast(a, b);
      SameInit(a, b);
      SortedUnique(a[..|a| - 1], b[..|b| - 1]);
      assert a == a[..|a| - 1] + [a[|a| - 1]] && b == b[..|b| - 1] + [b[|b| - 1]];
    }
  }

  // ---------------------------------------------------------------------- broadcasts

  /** What is recorded of a group. */
  function Record(pending: seq<Request>, doms: seq<Dom>, group: Id): (string, seq<Id>) {
    (TargetOf(pending, doms, group), SortIds(Members(doms, |doms|, group)))
  }

  function Groups(doms: seq<Dom>): set<Id> {
    set i | 0 <= i < |doms| && doms[i].connected :: GroupOf(doms[i])
  }

  function TargetsOf(pending: seq<Request>, doms: seq<Dom>): TargetModes {
    map g | g in Groups(doms) :: Record(pending, doms, g)
  }

  /** A group's record is news: its target or its DOMs differ from the last one, or there
      was none and the target is not empty. */
  predicate Changed(prev: TargetModes, now: (string, seq<Id>), group: Id) {
    if group in prev then prev[group] != now else now.0 != ""
  }

  /** What telling a DOM its target puts out. */
  type Pusher = (Id, string) -> multiset<Out>

  function PushTo(backends: seq<Backend>): Pusher {
    (dom: Id, target: string) => Push(backends, dom, target)
  }

  /** What DOM d adds to the broadcasts. */
  function PushOne(push: Pusher, prev: TargetModes, now: Id -> (string, seq<Id>), groups: set<Id>, d: Dom): multiset<Out> {
    var g := GroupOf(d);
    if d.connected && g in groups && Changed(prev, now(g), g) then push(d.id, now(g).0) else multiset{}
  }

  /** What the first n DOMs are sent: each connected one whose group is in question and
      has changed, that group's target, once. */
  function Pushed(push: Pusher, prev: TargetModes, now: Id -> (string, seq<Id>), groups: set<Id>, doms: seq<Dom>, n: nat): multiset<Out>
    requires n <= |doms|
  {
    if n == 0 then multiset{} else
      Pushed(push, prev, now, groups, doms, n - 1) + PushOne(push, prev, now, groups, doms[n - 1])
  }

  function Push(backends: seq<Backend>, dom: Id, target: string): multiset<Out> {
    var owner := Owner(backends, dom);
    if owner.None? then multiset{} else multiset{ToDom(owner.value, dom, Target(target))}
  }

  function Records(pending: seq<Request>, doms: seq<Dom>): Id -> (string, seq<Id>) {
    (g: Id) => Record(pending, doms, g)
  }

  function PushTargets(s: State): State {
    var doms := AllDoms(s.backends);
    s.(targets := TargetsOf(s.pending, doms),
       sent := s.sent + Pushed(PushTo(s.backends), s.targets, Records(s.pending, doms), Groups(doms), doms, |doms|))
  }

  function Reconcile(s: State): State {
    PushTargets(DrainDead(ProcessPending(s)))
  }

  /** A message to a DOM comes only from telling that DOM. */
  ghost predicate Only(push: Pusher, id: Id, out: Out) {
    forall dom, target :: dom != id ==> push(dom, target)[out] == 0
  }

  lemma PushOneCount(push: Pusher, prev: TargetModes, now: Id -> (string, seq<Id>), groups: set<Id>, d: Dom, id: Id, out: Out)
    requires Only(push, id, out) && d.id != id
    ensures PushOne(push, prev, now, groups, d)[out] == 0
  {
  }

  /** Of the first n DOMs only DOM i can be sent anything under its id. */
  lemma {:induction false} PushedCount(push: Pusher, prev: TargetModes, now: Id -> (string, seq<Id>), groups: set<Id>, doms: seq<Dom>, n: nat, i: nat, out: Out)
    requires i < |doms| && n <= |doms| && Only(push, doms[i].id, out)
    requires forall j :: 0 <= j < |doms| && j != i && doms[j].connected ==> doms[j].id != doms[i].id
    ensures Pushed(push, prev, now, groups, doms, n)[out] == if i < n then PushOne(push, prev, now, groups, doms[i])[out] else 0
  {
    if n > 0 {
      PushedCount(push, prev, now, groups, doms, n - 1, i, out);
      if n - 1 != i && doms[n - 1].connected { PushOneCount(push, prev, now, groups, doms[n - 1], doms[i].id, out); }
    }
  }

  /** A target pushed to one DOM is one message, to that DOM. */
  lemma PushCount(backends: seq<Backend>, id: Id, mode: string)
    requires Owner(backends, id).Some?
    ensures var out := ToDom(Owner(backends, id).value, id, Target(mode));
            && Only(PushTo(backends), id, out)
            && forall target :: PushTo(backends)(id, target)[out] == if target == mode then 1 else 0
  {
  }

  lemma TargetsAt(s: State, i: nat)
    requires i < |AllDoms(s.backends)| && AllDoms(s.backends)[i].connected
    ensures var doms := AllDoms(s.backends);
            var g := GroupOf(doms[i]);
            && g in Groups(doms) && g in PushTargets(s).targets
            && PushTargets(s).targets[g] == Record(s.pending, doms, g)
  {
  }

  /** The DOM of one connected entry, told its studio's target: how often out goes out. */
  lemma PushOneAt(push: Pusher, prev: TargetModes, now: Id -> (string, seq<Id>), groups: set<Id>, d: Dom, mode: string, out: Out)
    requires d.connected && GroupOf(d) in groups
    requires forall target :: push(d.id, target)[out] == if target == mode then 1 else 0
    ensures PushOne(push, prev, now, groups, d)[out]
            == if Changed(prev, now(GroupOf(d)), GroupOf(d)) && mode == now(GroupOf(d)).0 then 1 else 0
  {
  }

  /** The broadcast refines its specification: each connected DOM is sent its studio's
      target exactly once when the studio's target or DOM set has changed, nothing else,
      and nothing at all when neither has; and the studio's record is renewed. */
  lemma BroadcastExact(s: State, i: nat, mode: string)
    requires var doms := AllDoms(s.backends);
             && i < |doms| && doms[i].connected
             && forall j :: 0 <= j < |doms| && j != i && doms[j].connected ==> doms[j].id != doms[i].id
    ensures var doms, t := AllDoms(s.backends), PushTargets(s);
            var g := GroupOf(doms[i]);
            var owner := Owner(s.backends, doms[i].id);
            && owner.Some? && g in t.targets && t.targets[g] == Record(s.pending, doms, g)
            && var out := ToDom(owner.value, doms[i].id, Target(mode));
               t.sent[out] == s.sent[out]
                 + if Changed(s.targets, t.targets[g], g) && mode == TargetOf(s.pending, doms, g) then 1 else 0
  {
    var doms := AllDoms(s.backends);
    var d := doms[i];
    ListedIn(s.backends, d.id);
    assert d in doms;
    PushCount(s.backends, d.id, mode);
    TargetsAt(s, i);
    PushesAt(PushTo(s.backends), s.targets, Records(s.pending, doms), Groups(doms), doms, i, mode,
             ToDom(Owner(s.backends, d.id).value, d.id, Target(mode)));
  }

  lemma PushesAt(push: Pusher, prev: TargetModes, now: Id -> (string, seq<Id>), groups: set<Id>, doms: seq<Dom>, i: nat,
    mode: string, out: Out)
    requires i < |doms| && doms[i].connected && GroupOf(doms[i]) in groups && Only(push, doms[i].id, out)
    requires forall target :: push(doms[i].id, target)[out] == if target == mode then 1 else 0
    requires forall j :: 0 <= j < |doms| && j != i && doms[j].connected ==> doms[j].id != doms[i].id
    ensures Pushed(push, prev, now, groups, doms, |doms|)[out]
            == if Changed(prev, now(GroupOf(doms[i])), GroupOf(doms[i])) && mode == now(GroupOf(doms[i])).0 then 1 else 0
  {
    PushedCount(push, prev, now, groups, doms, |doms|, i, out);
    PushOneAt(push, prev, now, groups, doms[i], mode, out);
  }

  /** The list of DOMs recorded is the group's, sorted. */
  lemma RecordSorted(pending: seq<Request>, doms: seq<Dom>, group: Id)
    ensures Sorted(Record(pending, doms, group).1)
    ensures multiset(Record(pending, doms, group).1) == multiset(Members(doms, |doms|, group))
  {
    SortIdsSorted(Members(doms, |doms|, group));
  }

  /** Finding the same DOMs in another order changes no record's list. */
  lemma RecordStable(pending: seq<Request>, doms: seq<Dom>, other: seq<Dom>, group: Id)
    requires multiset(Members(doms, |doms|, group)) == multiset(Members(other, |other|, group))
    ensures Record(pending, doms, group).1 == Record(pending, other, group).1
  {
    RecordSorted(pending, doms, group);
    RecordSorted(pending, other, group);
    SortedUnique(Record(pending, doms, group).1, Record(pending, other, group).1);
  }

  // ------------------------------------------------------------------------ the loops

  lemma GroupsHaveMembers(doms: seq<Dom>, group: Id)
    ensures group in Groups(doms) <==> Members(doms, |doms|, group) != []
  {
    MembersOfGroup(doms, |doms|, group);
  }

  function MembersIn(groups: map<Id, seq<Id>>, group: Id): seq<Id> {
    if group in groups then groups[group] else []
  }

  /** groups lists the members found among the first n DOMs. */
  ghost predicate Grouped(key: Dom -> Id, groups: map<Id, seq<Id>>, doms: seq<Dom>, n: nat)
    requires n <= |doms|
  {
    && (forall g :: MembersIn(groups, g) == MembersBy(key, doms, n, g))
    && (forall g :: g in groups ==> groups[g] != [])
  }

  ghost predicate Identified(idents: map<Id, Id>, doms: seq<Dom>, n: nat)
    requires n <= |doms|
  {
    forall x :: Group(idents, x) == GroupFor(doms, n, x)
  }

  method AddMember(ghost key: Dom -> Id, groups0: map<Id, seq<Id>>, ghost doms: seq<Dom>, ghost n: nat, d: Dom, group: Id)
    returns (groups: map<Id, seq<Id>>)
    requires n < |doms| && d == doms[n] && group == key(d) && Grouped(key, groups0, doms, n)
    ensures Grouped(key, groups, doms, n + 1)
  {
    groups := groups0;
    if d.connected { groups := groups[group := MembersIn(groups, group) + [d.id]]; }
    forall g ensures MembersIn(groups, g) == MembersBy(key, doms, n + 1, g) {
      assert MembersIn(groups0, g) == MembersBy(key, doms, n, g);
    }
  }

  method AddIdents(idents0: map<Id, Id>, ghost doms: seq<Dom>, ghost n: nat, d: Dom) returns (idents: map<Id, Id>)
    requires n < |doms| && d == doms[n] && Identified(idents0, doms, n)
    ensures Identified(idents, doms, n + 1)
  {
    idents := idents0;
    if d.connected { idents := NoteIdents(idents, d); }
  }

  method GroupDoms(doms: seq<Dom>) returns (groups: map<Id, seq<Id>>, idents: map<Id, Id>)
    ensures groups.Keys == Groups(doms)
    ensures forall g :: g in groups ==> groups[g] == Members(doms, |doms|, g)
    ensures Identified(idents, doms, |doms|)
  {
    groups, idents := map[], map[];
    for n := 0 to |doms|
      invariant Grouped(GroupOf, groups, doms, n) && Identified(idents, doms, n)
    {
      idents := AddIdents(idents, doms, n, doms[n]);
      groups := AddMember(GroupOf, groups, doms, n, doms[n], GroupOf(doms[n]));
    }
    forall g ensures (g in groups <==> g in Groups(doms)) && MembersIn(groups, g) == Members(doms, |doms|, g) {
      GroupsHaveMembers(doms, g);
      assert MembersIn(groups, g) == MembersBy(GroupOf, doms, |doms|, g);
    }
  }

  method NoteIdents(idents0: map<Id, Id>, d: Dom) returns (idents: map<Id, Id>)
    ensures forall x :: Group(idents, x) == if Carries(d, x) then Some(GroupOf(d)) else Group(idents0, x)
  {
    idents := idents0;
    if Given(d.studio) { idents := idents[d.studio.value := GroupOf(d)]; }
    if Given(d.session) { idents := idents[d.session.value := GroupOf(d)]; }
  }

  function Group(m: map<Id, Id>, x: Id): Option<Id> {
    if x in m then Some(m[x]) else None
  }

  method SortGroups(groups: map<Id, seq<Id>>) returns (sorted: map<Id, seq<Id>>)
    ensures sorted.Keys == groups.Keys && forall g :: g in groups ==> sorted[g] == SortIds(groups[g])
  {
    sorted := groups;
    var rest := groups.Keys;
    while rest != {}
      invariant rest <= groups.Keys == sorted.Keys
      invariant forall g :: g in groups ==> sorted[g] == if g in rest then groups[g] else SortIds(groups[g])
    {
      var g :| g in rest;
      sorted := sorted[g := SortIds(sorted[g])];
      rest := rest - {g};
    }
  }

  /** Before k runs of the order had their turn, for the groups in rest; after, for others. */
  ghost predicate Derived(applies: Applying, pending: seq<Request>, order: seq<nat>, k: nat, rest: set<Id>, derived: map<Id, string>)
    requires k <= |order| && Upto(order, |pending|)
  {
    forall g :: g in derived ==>
      derived[g] == TargetAfter(applies, ModeOf, pending, order, if g in rest && k > 0 then k - 1 else k, g)
  }

  /** A run's turn with one group. */
  method DriveGroup(ghost applies: Applying, ghost pending: seq<Request>, ghost order: seq<nat>, ghost k: nat, ghost rest: set<Id>,
    derived0: map<Id, string>, group: Id, mode: string)
    returns (derived: map<Id, string>)
    requires k < |order| && Upto(order, |pending|) && group in derived0 && group in rest
    requires applies(pending[order[k]], group) && mode == ModeOf(pending[order[k]])
    requires Derived(applies, pending, order, k + 1, rest, derived0)
    ensures derived.Keys == derived0.Keys && Derived(applies, pending, order, k + 1, rest - {group}, derived)
  {
    derived := derived0;
    if derived[group] == "" { derived := derived[group := mode]; }
  }

  /** Groups the run does not apply to are as if it had had its turn. */
  lemma Untouched(applies: Applying, pending: seq<Request>, order: seq<nat>, k: nat, rest: set<Id>, derived: map<Id, string>)
    requires k < |order| && Upto(order, |pending|)
    requires Derived(applies, pending, order, k + 1, rest, derived)
    requires forall g :: g in rest ==> !applies(pending[order[k]], g)
    ensures Derived(applies, pending, order, k + 1, {}, derived)
  {
  }

  lemma AppliesWhen(doms: seq<Dom>, run: Request)
    ensures !Drives(run) ==> forall g :: !AppliesIn(doms)(run, g)
    ensures Drives(run) && !Given(run.session) ==> forall g :: AppliesIn(doms)(run, g)
    ensures Drives(run) && Given(run.session) ==>
              forall g :: AppliesIn(doms)(run, g) <==> GroupFor(doms, |doms|, run.session.value) == Some(g)
  {
  }

  /** One run's turn: every group it applies to that has no target yet gets its mode. */
  method DriveGroups(pending: seq<Request>, order: seq<nat>, k: nat, doms: seq<Dom>, idents: map<Id, Id>, derived0: map<Id, string>)
    returns (derived: map<Id, string>)
    requires k < |order| && Upto(order, |pending|)
    requires Identified(idents, doms, |doms|)
    requires derived0.Keys == Groups(doms) && Derived(AppliesIn(doms), pending, order, k, {}, derived0)
    ensures derived.Keys == Groups(doms) && Derived(AppliesIn(doms), pending, order, k + 1, {}, derived)
  {
    derived := derived0;
    var run := pending[order[k]];
    AppliesWhen(doms, run);
    ghost var applies := AppliesIn(doms);
    var rest := derived.Keys;
    assert Derived(applies, pending, order, k + 1, rest, derived);
    if Drives(run) && Given(run.session) {
      assert Group(idents, run.session.value) == GroupFor(doms, |doms|, run.session.value);
      if run.session.value in idents {
        var group := idents[run.session.value];
        GroupForIsGroup(doms, |doms|, run.session.value);
        derived := DriveGroup(applies, pending, order, k, rest, derived, group, ModeOf(run));
        rest := rest - {group};
      }
    } else if Drives(run) {
      while rest != {}
        invariant rest <= derived.Keys == Groups(doms)
        invariant Derived(applies, pending, order, k + 1, rest, derived)
      {
        var g :| g in rest;
        derived := DriveGroup(applies, pending, order, k, rest, derived, g, ModeOf(run));
        rest := rest - {g};
      }
    }
    Untouched(applies, pending, order, k, rest, derived);
  }

  lemma DerivedNone(applies: Applying, pending: seq<Request>, order: seq<nat>, derived: map<Id, string>)
    requires Upto(order, |pending|) && forall g :: g in derived ==> derived[g] == ""
    ensures Derived(applies, pending, order, 0, {}, derived)
  {
  }

  lemma DerivedAll(pending: seq<Request>, doms: seq<Dom>, derived: map<Id, string>)
    requires var order := Ordered(pending, |pending|); Derived(AppliesIn(doms), pending, order, |order|, {}, derived)
    ensures forall g :: g in derived ==> derived[g] == TargetOf(pending, doms, g)
  {
  }

  method DeriveModes(pending: seq<Request>, doms: seq<Dom>, idents: map<Id, Id>) returns (derived: map<Id, string>)
    requires Identified(idents, doms, |doms|)
    ensures derived.Keys == Groups(doms)
    ensures forall g :: g in derived ==> derived[g] == TargetOf(pending, doms, g)
  {
    derived := map g | g in Groups(doms) :: "";
    var order := Ordered(pending, |pending|);
    DerivedNone(AppliesIn(doms), pending, order, derived);
    for k := 0 to |order|
      invariant derived.Keys == Groups(doms)
      invariant Derived(AppliesIn(doms), pending, order, k, {}, derived)
    {
      derived := DriveGroups(pending, order, k, doms, idents, derived);
    }
    DerivedAll(pending, doms, derived);
  }

  /** What a list of pushes sends. */
  function Sum(push: Pusher, pushes: seq<(Id, string)>): multiset<Out> {
    if pushes == [] then multiset{} else
      Sum(push, pushes[..|pushes| - 1]) + push(pushes[|pushes| - 1].0, pushes[|pushes| - 1].1)
  }

  function Each(ids: seq<Id>, target: string): (r: seq<(Id, string)>)
    ensures |r| == |ids| && forall i :: 0 <= i < |r| ==> r[i] == (ids[i], target)
  {
    seq(|ids|, i requires 0 <= i < |ids| => (ids[i], target))
  }

  lemma {:induction false} SumAppend(push: Pusher, a: seq<(Id, string)>, b: seq<(Id, string)>)
    ensures Sum(push, a + b) == Sum(push, a) + Sum(push, b)
  {
    if b == [] {
      assert a + b == a;
    } else {
      SumAppend(push, a, b[..|b| - 1]);
      assert (a + b)[..|a + b| - 1] == a + b[..|b| - 1];
    }
  }

  lemma EachSnoc(push: Pusher, ids: seq<Id>, x: Id, target: string)
    ensures Sum(push, Each(ids + [x], target)) == Sum(push, Each(ids, target)) + push(x, target)
  {
    assert Each(ids + [x], target) == Each(ids, target) + [(x, target)];
    assert Each(ids + [x], target)[..|ids|] == Each(ids, target);
  }

  lemma {:induction false} InsertIdSum(push: Pusher, ids: seq<Id>, x: Id, target: string)
    ensures Sum(push, Each(InsertId(ids, x), target)) == Sum(push, Each(ids, target)) + push(x, target)
  {
    if ids == [] {
      EachSnoc(push, [], x, target);
      assert [] + [x] == [x];
    } else {
      var init, last := ids[..|ids| - 1], ids[|ids| - 1];
      assert ids == init + [last];
      if LexLe(last, x) {
        EachSnoc(push, ids, x, target);
      } else {
        InsertIdSum(push, init, x, target);
        EachSnoc(push, InsertId(init, x), last, target);
        EachSnoc(push, init, last, target);
      }
    }
  }

  lemma {:induction false} SortIdsSum(push: Pusher, ids: seq<Id>, target: string)
    ensures Sum(push, Each(SortIds(ids), target)) == Sum(push, Each(ids, target))
  {
    if ids != [] {
      var init, last := ids[..|ids| - 1], ids[|ids| - 1];
      assert ids == init + [last];
      SortIdsSum(push, init, target);
      InsertIdSum(push, SortIds(init), last, target);
      EachSnoc(push, init, last, target);
    }
  }

  lemma PushOneMore(push: Pusher, prev: TargetModes, now: Id -> (string, seq<Id>), groups: set<Id>, g: Id, d: Dom)
    requires g !in groups
    ensures PushOne(push, prev, now, groups + {g}, d) ==
            PushOne(push, prev, now, groups, d) + PushOne(push, prev, now, {g}, d)
  {
  }

  /** What group g adds up to DOM n. */
  function GroupPushes(push: Pusher, prev: TargetModes, now: Id -> (string, seq<Id>), g: Id, doms: seq<Dom>, n: nat): multiset<Out>
    requires n <= |doms|
  {
    if Changed(prev, now(g), g) then Sum(push, Each(Members(doms, n, g), now(g).0)) else multiset{}
  }

  lemma GroupPushesNext(push: Pusher, prev: TargetModes, now: Id -> (string, seq<Id>), g: Id, doms: seq<Dom>, n: nat)
    requires 0 < n <= |doms|
    ensures GroupPushes(push, prev, now, g, doms, n) == GroupPushes(push, prev, now, g, doms, n - 1)
            + PushOne(push, prev, now, {g}, doms[n - 1])
  {
    var d := doms[n - 1];
    if d.connected && GroupOf(d) == g {
      EachSnoc(push, Members(doms, n - 1, g), d.id, now(g).0);
    } else {
      assert Members(doms, n, g) == Members(doms, n - 1, g);
    }
  }

  lemma FourSums(a: multiset<Out>, b: multiset<Out>, c: multiset<Out>, d: multiset<Out>)
    ensures (a + b) + (c + d) == (a + c) + (b + d)
  {
  }

  lemma {:induction false} PushedMore(push: Pusher, prev: TargetModes, now: Id -> (string, seq<Id>), groups: set<Id>, g: Id,
    doms: seq<Dom>, n: nat)
    requires n <= |doms| && g !in groups
    ensures Pushed(push, prev, now, groups + {g}, doms, n) ==
            Pushed(push, prev, now, groups, doms, n) + GroupPushes(push, prev, now, g, doms, n)
  {
    if n > 0 {
      PushedMore(push, prev, now, groups, g, doms, n - 1);
      PushOneMore(push, prev, now, groups, g, doms[n - 1]);
      GroupPushesNext(push, prev, now, g, doms, n);
      FourSums(Pushed(push, prev, now, groups, doms, n - 1), GroupPushes(push, prev, now, g, doms, n - 1),
               PushOne(push, prev, now, groups, doms[n - 1]), PushOne(push, prev, now, {g}, doms[n - 1]));
    } else {
      assert Members(doms, 0, g) == [];
    }
  }

  lemma {:induction false} PushedNone(push: Pusher, prev: TargetModes, now: Id -> (string, seq<Id>), groups: set<Id>, doms: seq<Dom>, n: nat)
    requires n <= |doms| && forall g :: g in groups ==> !Changed(prev, now(g), g)
    ensures Pushed(push, prev, now, groups, doms, n) == multiset{}
  {
    if n > 0 { PushedNone(push, prev, now, groups, doms, n - 1); }
  }

  /** The broadcasts and records of the groups done so far. */
  ghost predicate Collected(push: Pusher, prev: TargetModes, now: Id -> (string, seq<Id>), doms: seq<Dom>, done: set<Id>,
    pushes: seq<(Id, string)>, next: TargetModes)
  {
    && Sum(push, pushes) == Pushed(push, prev, now, done, doms, |doms|)
    && next.Keys == done && forall g :: g in next ==> next[g] == now(g)
  }

  ghost predicate Recorded(now: Id -> (string, seq<Id>), doms: seq<Dom>, g: Id, target: string, ids: seq<Id>) {
    now(g) == (target, ids) && ids == SortIds(Members(doms, |doms|, g))
  }

  lemma CollectedNone(push: Pusher, prev: TargetModes, now: Id -> (string, seq<Id>), doms: seq<Dom>)
    ensures Collected(push, prev, now, doms, {}, [], map[])
  {
    PushedNone(push, prev, now, {}, doms, |doms|);
  }

  method CollectGroup(ghost push: Pusher, prev: TargetModes, ghost now: Id -> (string, seq<Id>), ghost doms: seq<Dom>,
    ghost done: set<Id>, pushes0: seq<(Id, string)>, next0: TargetModes, g: Id, target: string, ids: seq<Id>)
    returns (pushes: seq<(Id, string)>, next: TargetModes)
    requires g !in done && Collected(push, prev, now, doms, done, pushes0, next0)
    requires Recorded(now, doms, g, target, ids)
    ensures Collected(push, prev, now, doms, done + {g}, pushes, next)
  {
    pushes := pushes0;
    var changed := if g in prev then prev[g] != (target, ids) else target != "";
    PushedMore(push, prev, now, done, g, doms, |doms|);
    if changed {
      SortIdsSum(push, Members(doms, |doms|, g), target);
      SumAppend(push, pushes, Each(ids, target));
      pushes := pushes + Each(ids, target);
    }
    next := next0[g := (target, ids)];
  }

  /** The broadcasts due, group after group in whatever order. */
  method CollectPushes(ghost push: Pusher, prev: TargetModes, ghost now: Id -> (string, seq<Id>), ghost doms: seq<Dom>,
    sorted: map<Id, seq<Id>>, derived: map<Id, string>)
    returns (pushes: seq<(Id, string)>, next: TargetModes)
    requires sorted.Keys == derived.Keys
    requires forall g :: g in derived ==> Recorded(now, doms, g, derived[g], sorted[g])
    ensures Collected(push, prev, now, doms, derived.Keys, pushes, next)
  {
    pushes, next := [], map[];
    var rest := derived.Keys;
    ghost var done: set<Id> := {};
    CollectedNone(push, prev, now, doms);
    while rest != {}
      invariant forall g :: g in derived <==> g in rest || g in done
      invariant rest !! done
      invariant Collected(push, prev, now, doms, done, pushes, next)
      decreases rest
    {
      var g :| g in rest;
      pushes, next := CollectGroup(push, prev, now, doms, done, pushes, next, g, derived[g], sorted[g]);
      rest, done := rest - {g}, done + {g};
    }
    assert done == derived.Keys;
  }
}
