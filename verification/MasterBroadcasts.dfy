/** Which target mode every studio is recorded with and which DOMs are told, in terms of the
    snapshots and the queue. */
module MasterBroadcasts {
  import opened Options
  import opened Route
  import opened Scheduler
  import opened Routing
  import opened Targets
  import opened Master
  import opened MasterRuns
  import opened MasterTheorems
  import opened MasterQueue
  import opened MasterTargets
  import opened MasterShapes
  import opened MasterSteps
  import opened MasterOutbox

  // ---------------------------------------------------------------------------- studios

  /** The DOM belongs to the studio recorded under g: its studio id, failing that its
      session, failing that its own id; an empty string is none. */
  predicate CountsTo(d: Dom, g: Id) {
    var none := {None, Some("")};
    if d.studio !in none then d.studio == Some(g) else if d.session !in none then d.session == Some(g) else d.id == g
  }

  lemma GroupIff(d: Dom, g: Id)
    ensures GroupOf(d) == g <==> CountsTo(d, g)
  {
  }

  /** The connected DOMs of the studio, in their order. */
  lemma {:induction false} MembersAt(doms: seq<Dom>, n: nat, g: Id) returns (at: seq<nat>)
    requires n <= |doms|
    ensures |at| == |Members(doms, n, g)|
    ensures forall i :: 0 <= i < |at| ==> at[i] < n && Members(doms, n, g)[i] == doms[at[i]].id
    ensures forall i, j :: 0 <= i < j < |at| ==> at[i] < at[j]
    ensures forall k :: 0 <= k < n ==> (k in at <==> doms[k].connected && CountsTo(doms[k], g))
  {
    if n == 0 { return []; }
    at := MembersAt(doms, n - 1, g);
    GroupIff(doms[n - 1], g);
    if doms[n - 1].connected && GroupOf(doms[n - 1]) == g { at := at + [n - 1]; }
  }

  /** The strings agree up to character k, where the first is less. */
  ghost predicate FirstDiffers(a: string, b: string, k: int) {
    0 <= k < |a| && k < |b| && a[..k] == b[..k] && a[k] < b[k]
  }

  /** The order the recorded DOMs are in: a prefix goes first, and else the first character
      that differs decides. */
  lemma {:induction false} LexMeans(a: string, b: string)
    ensures LexLe(a, b) <==> a <= b || exists k :: FirstDiffers(a, b, k)
  {
    if a != "" && b != "" {
      if a[0] == b[0] {
        LexMeans(a[1..], b[1..]);
        assert a <= b <==> a[1..] <= b[1..] by { assert a == [a[0]] + a[1..] && b == [b[0]] + b[1..]; }
        LexShift(a, b);
      } else if a[0] < b[0] {
        assert FirstDiffers(a, b, 0);
      }
    }
  }

  lemma LexShift(a: string, b: string)
    requires a != "" && b != "" && a[0] == b[0]
    ensures (exists k :: FirstDiffers(a, b, k)) <==> exists k :: FirstDiffers(a[1..], b[1..], k)
  {
    if k :| FirstDiffers(a, b, k) {
      assert a[1..][..k - 1] == a[..k][1..] && b[1..][..k - 1] == b[..k][1..];
      assert FirstDiffers(a[1..], b[1..], k - 1);
    }
    if k :| FirstDiffers(a[1..], b[1..], k) {
      assert a[..k + 1] == [a[0]] + a[1..][..k] && b[..k + 1] == [b[0]] + b[1..][..k];
      assert FirstDiffers(a, b, k + 1);
    }
  }

  /** The last connected DOM that carries this identifier belongs to the studio. */
  ghost predicate LeadsTo(doms: seq<Dom>, n: nat, ident: Id, g: Id)
    requires n <= |doms|
  {
    exists k :: && 0 <= k < n && CarriedBy(doms[k], ident) && CountsTo(doms[k], g)
                && forall l :: k < l < n ==> !CarriedBy(doms[l], ident)
  }

  predicate CarriedBy(d: Dom, ident: Id) {
    d.connected && (d.studio == Some(ident) || d.session == Some(ident))
  }

  lemma {:induction false} GroupForIff(doms: seq<Dom>, n: nat, ident: Id, g: Id)
    requires n <= |doms| && ident != ""
    ensures GroupFor(doms, n, ident) == Some(g) <==> LeadsTo(doms, n, ident, g)
  {
    if n > 0 {
      GroupForIff(doms, n - 1, ident, g);
      GroupIff(doms[n - 1], g);
      if CarriedBy(doms[n - 1], ident) {
        assert GroupFor(doms, n, ident) == Some(GroupOf(doms[n - 1]));
      } else if LeadsTo(doms, n - 1, ident, g) {
        var k :| && 0 <= k < n - 1 && CarriedBy(doms[k], ident) && CountsTo(doms[k], g)
                 && forall l :: k < l < n - 1 ==> !CarriedBy(doms[l], ident);
        assert forall l :: k < l < n ==> !CarriedBy(doms[l], ident);
      }
    }
  }

  // ---------------------------------------------------------------------------- targets

  /** The queued run asks the studio for this mode: it is not pinned, its route resolves to
      run, test or play, and its session, if it has one, leads to the studio. */
  ghost predicate Asks(run: Request, doms: seq<Dom>, g: Id, mode: string) {
    && run.domId.None?
    && (exists r :: Resolve(run.route) == Some(r) && (r.mode, mode) in {(RunMode, "run"), (TestMode, "test"), (PlayMode, "play")})
    && (run.session.None? || run.session == Some("") || LeadsTo(doms, |doms|, run.session.value, g))
  }

  lemma AsksIff(run: Request, doms: seq<Dom>, g: Id, mode: string)
    ensures Asks(run, doms, g, mode) <==> Applies(run, doms, g) && ModeOf(run) == mode
  {
    if Resolve(run.route).Some? {
      ResolveIff(run.route, Resolve(run.route).value);
      ModeNamed(Resolve(run.route).value.mode, mode);
    }
    if Given(run.session) { GroupForIff(doms, |doms|, run.session.value, g); }
  }

  lemma ModeNamed(m: Mode, mode: string)
    ensures (m, mode) in {(RunMode, "run"), (TestMode, "test"), (PlayMode, "play")} <==> m != EditMode && ModeName(m) == mode
  {
  }

  /** A studio's target is what the run asks for that was created first, or queued first of
      those created at the same time; it is empty if no run asks for anything. */
  lemma TargetExact(pending: seq<Request>, doms: seq<Dom>, g: Id) returns (i: Option<nat>)
    ensures i.Some? ==>
              && i.value < |pending| && Asks(pending[i.value], doms, g, TargetOf(pending, doms, g))
              && forall j, mode :: 0 <= j < |pending| && j != i.value && Asks(pending[j], doms, g, mode) ==>
                   pending[i.value].createdAt < pending[j].createdAt
                   || (pending[i.value].createdAt == pending[j].createdAt && i.value < j)
    ensures i.None? ==> TargetOf(pending, doms, g) == "" && forall j, mode :: 0 <= j < |pending| ==> !Asks(pending[j], doms, g, mode)
  {
    i := TargetMeans(pending, doms, g);
    if i.Some? { AsksIff(pending[i.value], doms, g, TargetOf(pending, doms, g)); }
    forall j, mode | 0 <= j < |pending| && Asks(pending[j], doms, g, mode)
      ensures i.Some? && (j != i.value ==> Before(pending, i.value, j))
    {
      AsksIff(pending[j], doms, g, mode);
    }
  }

  /** ids are those of the DOMs at the positions at, in order. */
  ghost predicate SortedIdsAt(ids: seq<Id>, doms: seq<Dom>, at: seq<nat>) {
    && (forall i, j :: 0 <= i < j < |ids| ==> ids[i] <= ids[j] || exists k :: FirstDiffers(ids[i], ids[j], k))
    && (forall i :: 0 <= i < |at| ==> at[i] < |doms|)
    && multiset(ids) == multiset(seq(|at|, i requires 0 <= i < |at| => doms[at[i]].id))
  }

  lemma SortedAscends(ids: seq<Id>)
    requires Sorted(ids)
    ensures forall i, j :: 0 <= i < j < |ids| ==> ids[i] <= ids[j] || exists k :: FirstDiffers(ids[i], ids[j], k)
  {
    forall i, j | 0 <= i < j < |ids| ensures ids[i] <= ids[j] || exists k :: FirstDiffers(ids[i], ids[j], k) {
      LexMeans(ids[i], ids[j]);
    }
  }

  lemma RecordedIds(pending: seq<Request>, doms: seq<Dom>, g: Id, at: seq<nat>)
    requires |at| == |Members(doms, |doms|, g)|
    requires forall i :: 0 <= i < |at| ==> at[i] < |doms| && Members(doms, |doms|, g)[i] == doms[at[i]].id
    ensures SortedIdsAt(Record(pending, doms, g).1, doms, at)
  {
    RecordSorted(pending, doms, g);
    SortedAscends(Record(pending, doms, g).1);
    assert Members(doms, |doms|, g) == seq(|at|, i requires 0 <= i < |at| => doms[at[i]].id);
  }

  lemma RecordedIff(doms: seq<Dom>, g: Id)
    ensures g in Groups(doms) <==> exists k :: 0 <= k < |doms| && doms[k].connected && CountsTo(doms[k], g)
  {
    if g in Groups(doms) {
      var k :| 0 <= k < |doms| && doms[k].connected && GroupOf(doms[k]) == g;
      GroupIff(doms[k], g);
    }
    if k :| 0 <= k < |doms| && doms[k].connected && CountsTo(doms[k], g) { GroupIff(doms[k], g); }
  }

  /** The records: one for each studio with a connected DOM; its target, and its connected
      DOMs' ids in order. */
  lemma RecordedExact(pending: seq<Request>, doms: seq<Dom>, g: Id) returns (at: seq<nat>)
    ensures g in TargetsOf(pending, doms) <==> exists k :: 0 <= k < |doms| && doms[k].connected && CountsTo(doms[k], g)
    ensures g in TargetsOf(pending, doms) ==>
              TargetsOf(pending, doms)[g].0 == TargetOf(pending, doms, g) && SortedIdsAt(TargetsOf(pending, doms)[g].1, doms, at)
    ensures forall i, j :: 0 <= i < j < |at| ==> at[i] < at[j]
    ensures forall k :: 0 <= k < |doms| ==> (k in at <==> doms[k].connected && CountsTo(doms[k], g))
  {
    at := MembersAt(doms, |doms|, g);
    RecordedIff(doms, g);
    RecordedIds(pending, doms, g, at);
  }

  // ------------------------------------------------------------------------- every step

  /** A step that looks through the queue leaves the records those of the queue and the
      snapshots; no other step touches them. */
  lemma StepRecords(s: State, e: Event)
    requires Inv(s) && Settled(s) && Enabled(s, e)
    ensures var t := Next(s, e); t.targets == if Sifts(s, e) then TargetsOf(t.pending, AllDoms(t.backends)) else s.targets
  {
    if Sifts(s, e) { SiftsRest(s, e); } else { PassesBy(s, e); }
  }

  lemma PassesBy(s: State, e: Event)
    requires !Sifts(s, e)
    ensures Next(s, e).targets == s.targets
  {
    if e.Submit? { MatchedGo(s.backends, e.run); }
  }

  lemma LossRests(s: State, e: Event)
    requires QueueOk(s) && ActiveOk(s) && Settled(s) && Sifts(s, e) && (e.BackendLost? || e.DomLost?)
    ensures AtRest(Next(s, e))
  {
    if e.DomLost? {
      ReconcileRests(Unpinned(Sweep(s, e.orphans), e.dom));
    } else {
      WithoutOk(s, e.backend);
      SweepIs(Without(s, e.backend), e.orphans);
    }
  }

  lemma CompletedRests(s: State, id: Id, msg: Msg, outcome: Outcome)
    ensures AtRest(CompleteRun(Forward(s, id, msg), id, outcome))
  {
    CompleteIs(s, id, msg, outcome);
    ReconcileRests(Finish(s, id, msg, outcome));
  }

  lemma SubmitRests(s: State, run: Request)
    requires !CanGo(s.backends, run)
    ensures AtRest(RouteOrQueue(s, run))
  {
    MatchedGo(s.backends, run);
    ReconcileRests(s.(pending := s.pending + [run]));
  }

  lemma SiftsRest(s: State, e: Event)
    requires QueueOk(s) && ActiveOk(s) && Settled(s) && Sifts(s, e)
    ensures AtRest(Next(s, e))
  {
    match e
    case Submit(run) => SubmitRests(s, run);
    case SnapshotTaken(backend, doms) => ReconcileRests(s.(backends := WithSnapshot(s.backends, backend, doms)));
    case Nudge => ReconcileRests(s);
    case Done(id, success) => CompletedRests(s, id, ExecutionDone(success), if success then Finished else Errored);
    case KilledBy(id) => CompletedRests(s, id, ExecutionKilled, Killed);
    case BackendLost(_, _) => LossRests(s, e);
    case DomLost(_, _) => LossRests(s, e);
  }

  // ------------------------------------------------------------------------- broadcasts

  /** The DOM is to be told this mode: it is connected, and its studio's record says so and
      is new, or differs from the one before in the mode or in the DOMs. */
  ghost predicate ToldNow(before: TargetModes, after: TargetModes, d: Dom, mode: string) {
    d.connected && exists g :: && CountsTo(d, g) && g in after && after[g].0 == mode
                               && if g in before then before[g] != after[g] else mode != ""
  }

  /** The entries of the snapshots under this id that are to be told. */
  ghost function ToldAt(before: TargetModes, after: TargetModes, doms: seq<Dom>, dom: Id, mode: string): set<int> {
    set k | 0 <= k < |doms| && doms[k].id == dom && ToldNow(before, after, doms[k], mode)
  }

  lemma ToldIff(before: TargetModes, pending: seq<Request>, doms: seq<Dom>, d: Dom, mode: string)
    requires GroupOf(d) in Groups(doms)
    ensures ToldNow(before, TargetsOf(pending, doms), d, mode)
            <==> d.connected && Changed(before, Record(pending, doms, GroupOf(d)), GroupOf(d)) && Record(pending, doms, GroupOf(d)).0 == mode
  {
    GroupIff(d, GroupOf(d));
    forall g | CountsTo(d, g) ensures g == GroupOf(d) { GroupIff(d, g); }
  }

  /** Telling one DOM puts out one message, and only to the backend that lists it. */
  lemma PushIs(backends: seq<Backend>, id: Id, target: string, b: Id, dom: Id, mode: string)
    ensures PushTo(backends)(id, target)[ToDom(b, dom, Target(mode))]
            == if Owner(backends, dom) == Some(b) && id == dom && target == mode then 1 else 0
  {
  }

  lemma ToldOne(push: Pusher, before: TargetModes, now: Id -> (string, seq<Id>), groups: set<Id>, d: Dom, out: Out, n: nat)
    requires d.connected && GroupOf(d) in groups && n == push(d.id, now(GroupOf(d)).0)[out]
    ensures PushOne(push, before, now, groups, d)[out] == if Changed(before, now(GroupOf(d)), GroupOf(d)) then n else 0
  {
  }

  /** How often one entry is told. */
  ghost predicate Counts(backends: seq<Backend>, before: TargetModes, pending: seq<Request>, doms: seq<Dom>, d: Dom, b: Id, dom: Id, mode: string) {
    PushOne(PushTo(backends), before, Records(pending, doms), Groups(doms), d)[ToDom(b, dom, Target(mode))]
    == if Owner(backends, dom) == Some(b) && d.id == dom && ToldNow(before, TargetsOf(pending, doms), d, mode) then 1 else 0
  }

  lemma EntryCounts(backends: seq<Backend>, before: TargetModes, pending: seq<Request>, doms: seq<Dom>, d: Dom, b: Id, dom: Id, mode: string)
    requires d in doms
    ensures Counts(backends, before, pending, doms, d, b, dom, mode)
  {
    if d.connected {
      var g, out := GroupOf(d), ToDom(b, dom, Target(mode));
      var k :| 0 <= k < |doms| && doms[k] == d;
      assert g in Groups(doms);
      ToldIff(before, pending, doms, d, mode);
      PushIs(backends, d.id, Record(pending, doms, g).0, b, dom, mode);
      ToldOne(PushTo(backends), before, Records(pending, doms), Groups(doms), d, out,
              PushTo(backends)(d.id, Record(pending, doms, g).0)[out]);
    }
  }

  ghost function Sum(count: nat -> nat, n: nat): nat {
    if n == 0 then 0 else Sum(count, n - 1) + count(n - 1)
  }

  /** Entries counted one by one. */
  lemma {:induction false} CountedUp(count: nat -> nat, n: nat, told: set<int>)
    requires forall k :: k in told ==> 0 <= k < n
    requires forall k: nat :: k < n ==> count(k) == if k in told then 1 else 0
    ensures Sum(count, n) == |told|
  {
    if n == 0 {
      assert forall k :: k !in told;
    } else {
      CountedUp(count, n - 1, told - {n - 1});
      WithoutOne(told, n - 1);
    }
  }

  /** How often entry k of doms puts the message out. */
  ghost function TimesPut(push: Pusher, before: TargetModes, now: Id -> (string, seq<Id>), groups: set<Id>, doms: seq<Dom>, out: Out): nat -> nat {
    (k: nat) => if k < |doms| then PushOne(push, before, now, groups, doms[k])[out] else 0
  }

  lemma {:induction false} PushedIsSum(push: Pusher, before: TargetModes, now: Id -> (string, seq<Id>), groups: set<Id>, doms: seq<Dom>, n: nat, out: Out)
    requires n <= |doms|
    ensures Pushed(push, before, now, groups, doms, n)[out] == Sum(TimesPut(push, before, now, groups, doms, out), n)
  {
    if n > 0 { PushedIsSum(push, before, now, groups, doms, n - 1, out); }
  }

  lemma WithoutOne(told: set<int>, k: int)
    ensures |told| == |told - {k}| + if k in told then 1 else 0
  {
    if k in told { assert told == (told - {k}) + {k}; } else { assert told == told - {k}; }
  }

  /** The broadcast: a target mode is sent once for every entry of the snapshots that is to
      be told, to the backend that lists it. */
  lemma ToldCount(s: State, b: Id, dom: Id, mode: string)
    ensures var t, out := PushTargets(s), ToDom(b, dom, Target(mode));
            t.sent[out] == s.sent[out] + if Owner(s.backends, dom) == Some(b) then |ToldAt(s.targets, t.targets, AllDoms(s.backends), dom, mode)| else 0
  {
    var doms, out := AllDoms(s.backends), ToDom(b, dom, Target(mode));
    var told := if Owner(s.backends, dom) == Some(b) then ToldAt(s.targets, TargetsOf(s.pending, doms), doms, dom, mode) else {};
    forall k | 0 <= k < |doms|
      ensures PushOne(PushTo(s.backends), s.targets, Records(s.pending, doms), Groups(doms), doms[k])[out] == if k in told then 1 else 0
    {
      EntryCounts(s.backends, s.targets, s.pending, doms, doms[k], b, dom, mode);
    }
    PushedIsSum(PushTo(s.backends), s.targets, Records(s.pending, doms), Groups(doms), doms, |doms|, out);
    CountedUp(TimesPut(PushTo(s.backends), s.targets, Records(s.pending, doms), Groups(doms), doms, out), |doms|, told);
  }

  /** What a step that ends in t tells DOMs. */
  ghost predicate Tells(s: State, t: State, b: Id, dom: Id, mode: string) {
    var out := ToDom(b, dom, Target(mode));
    t.sent[out] == s.sent[out] + if Owner(t.backends, dom) == Some(b) then |ToldAt(s.targets, t.targets, AllDoms(t.backends), dom, mode)| else 0
  }

  lemma ProcessTellsNone(s: State, b: Id, dom: Id, mode: string)
    requires DistinctIds(s.pending)
    ensures ProcessPending(s).sent[ToDom(b, dom, Target(mode))] == s.sent[ToDom(b, dom, Target(mode))]
    ensures ProcessPending(s).backends == s.backends && ProcessPending(s).targets == s.targets
  {
    DispatchFromSent(s, s.pending, 0, ToDom(b, dom, Target(mode)));
    DispatchFromKeeps(s, s.pending, 0);
  }

  lemma ReconcileTells(s: State, b: Id, dom: Id, mode: string)
    requires DistinctIds(s.pending)
    ensures Tells(s, Reconcile(s), b, dom, mode)
  {
    ProcessTellsNone(s, b, dom, mode);
    ToldCount(DrainDead(ProcessPending(s)), b, dom, mode);
  }

  lemma TellsSame(s: State, u: State, t: State, b: Id, dom: Id, mode: string)
    requires Tells(s, u, b, dom, mode) && t.targets == u.targets && t.backends == u.backends
    requires t.sent[ToDom(b, dom, Target(mode))] == u.sent[ToDom(b, dom, Target(mode))]
    ensures Tells(s, t, b, dom, mode)
  {
  }

  lemma TellsFrom(s: State, u: State, t: State, b: Id, dom: Id, mode: string)
    requires Tells(u, t, b, dom, mode) && u.targets == s.targets && u.sent == s.sent
    ensures Tells(s, t, b, dom, mode)
  {
  }

  lemma FinishTellsNone(u: State, of: Id, msg: Msg, outcome: Outcome, b: Id, dom: Id, mode: string)
    ensures var t := Finish(u, of, msg, outcome);
            && t.targets == u.targets && t.backends == u.backends
            && t.sent[ToDom(b, dom, Target(mode))] == u.sent[ToDom(b, dom, Target(mode))]
  {
    FinishSent(u, of, msg, outcome, ToDom(b, dom, Target(mode)));
    if of in u.active { FinishIs(u, of, msg, outcome); }
  }

  lemma CompletedTells(s: State, of: Id, msg: Msg, outcome: Outcome, b: Id, dom: Id, mode: string)
    requires QueueOk(s)
    ensures Tells(s, CompleteRun(Forward(s, of, msg), of, outcome), b, dom, mode)
  {
    var u := Finish(s, of, msg, outcome);
    CompleteIs(s, of, msg, outcome);
    FinishTellsNone(s, of, msg, outcome, b, dom, mode);
    FinishQueue(s, of, msg, outcome);
    ReconcileTells(u, b, dom, mode);
  }

  lemma SweptTells(s: State, u: State, orphans: seq<Id>, b: Id, dom: Id, mode: string)
    requires DistinctActive(u, orphans) && Tells(s, u, b, dom, mode)
    ensures Tells(s, FinishAll(u, orphans), b, dom, mode)
  {
    FinishAllSent(u, orphans, ToDom(b, dom, Target(mode)));
    FinishAllState(u, orphans);
    TellsSame(s, u, FinishAll(u, orphans), b, dom, mode);
  }

  lemma LostBackendTells(s: State, backend: Id, orphans: seq<Id>, b: Id, dom: Id, mode: string)
    requires QueueOk(s) && ActiveOk(s) && Settled(s) && Enabled(s, BackendLost(backend, orphans)) && orphans != []
    ensures Tells(s, BackendGone(s, backend, orphans), b, dom, mode)
  {
    var u := Without(s, backend);
    OrphansActive(s, BackendLost(backend, orphans));
    WithoutOk(s, backend);
    BackendShape(s, backend, orphans);
    SweptQueue(u, orphans);
    ReconcileTells(u, b, dom, mode);
    TellsFrom(s, u, Reconcile(u), b, dom, mode);
    SweptTells(s, Reconcile(u), orphans, b, dom, mode);
  }

  lemma LostDomTells(s: State, lost: Id, orphans: seq<Id>, b: Id, dom: Id, mode: string)
    requires QueueOk(s) && ActiveOk(s) && Settled(s) && Enabled(s, DomLost(lost, orphans))
    ensures Tells(s, DomGone(s, lost, orphans), b, dom, mode)
  {
    OrphansActive(s, DomLost(lost, orphans));
    if orphans == [] {
      UnsweptDom(s, lost);
      KeepDistinct(PinnedTo(lost), s.pending);
      ReconcileTells(Unpinned(s, lost), b, dom, mode);
      TellsFrom(s, Unpinned(s, lost), Reconcile(Unpinned(s, lost)), b, dom, mode);
    } else {
      SweptDom(s, lost, orphans);
      SweptQueue(s, orphans);
      ReconcileTells(s, b, dom, mode);
      SweptTells(s, Reconcile(s), orphans, b, dom, mode);
      TellsSame(s, FinishAll(Reconcile(s), orphans), DomGone(s, lost, orphans), b, dom, mode);
    }
  }

  lemma SubmitTells(s: State, run: Request, b: Id, dom: Id, mode: string)
    requires QueueOk(s) && Fresh(s, run) && !CanGo(s.backends, run)
    ensures Tells(s, RouteOrQueue(s, run), b, dom, mode)
  {
    var u := s.(pending := s.pending + [run]);
    MatchedGo(s.backends, run);
    ReconcileTells(u, b, dom, mode);
    TellsFrom(s, u, Reconcile(u), b, dom, mode);
  }

  lemma SnapshotTells(s: State, backend: Id, doms: seq<Dom>, b: Id, dom: Id, mode: string)
    requires QueueOk(s)
    ensures Tells(s, Snapshot(s, backend, doms), b, dom, mode)
  {
    var u := s.(backends := WithSnapshot(s.backends, backend, doms));
    ReconcileTells(u, b, dom, mode);
    TellsFrom(s, u, Reconcile(u), b, dom, mode);
  }

  lemma SiftsTells(s: State, e: Event, b: Id, dom: Id, mode: string)
    requires QueueOk(s) && ActiveOk(s) && Settled(s) && Enabled(s, e) && Sifts(s, e)
    ensures Tells(s, Next(s, e), b, dom, mode)
  {
    match e
    case Submit(run) => SubmitTells(s, run, b, dom, mode);
    case SnapshotTaken(backend, doms) => SnapshotTells(s, backend, doms, b, dom, mode);
    case Nudge => ReconcileTells(s, b, dom, mode);
    case Done(id, success) => CompletedTells(s, id, ExecutionDone(success), if success then Finished else Errored, b, dom, mode);
    case KilledBy(id) => CompletedTells(s, id, ExecutionKilled, Killed, b, dom, mode);
    case BackendLost(backend, orphans) => LostBackendTells(s, backend, orphans, b, dom, mode);
    case DomLost(lost, orphans) => LostDomTells(s, lost, orphans, b, dom, mode);
  }

  lemma PassesTellsNone(s: State, e: Event, b: Id, dom: Id, mode: string)
    requires Enabled(s, e) && !Sifts(s, e)
    ensures Next(s, e).sent[ToDom(b, dom, Target(mode))] == s.sent[ToDom(b, dom, Target(mode))]
  {
    if e.Submit? { MatchedGo(s.backends, e.run); }
  }

  /** Every step that looks through the queue tells exactly the DOMs of the studios whose
      record it makes new or changes, each the recorded mode, once for each entry, through
      the first backend that lists the DOM; no other step tells any. */
  lemma StepTells(s: State, e: Event, b: Id, dom: Id, mode: string)
    requires Inv(s) && Settled(s) && Enabled(s, e)
    ensures var t, out := Next(s, e), ToDom(b, dom, Target(mode));
            t.sent[out] == s.sent[out]
              + if Sifts(s, e) && FirstListing(t.backends, dom, b) then |ToldAt(s.targets, t.targets, AllDoms(t.backends), dom, mode)| else 0
  {
    OwnerIff(Next(s, e).backends, dom, b);
    if Sifts(s, e) { SiftsTells(s, e, b, dom, mode); } else { PassesTellsNone(s, e, b, dom, mode); }
  }
}
