/** Whole runs of the file-patch protocol: any number of processes apply, restore, sweep
    and stop midway, and others write the target, one operation after the other. */
module PatchRuns {
  import opened Options
  import opened FilePatch

  /** A handle as the world sees it. */
  datatype Held = Held(noOriginal: bool, restored: bool)

  /** original is what the target held when there was last no lock. */
  datatype World = World(dir: Dir, original: Option<Bytes>, handles: map<Name, Held>, used: set<Name>)

  datatype Event =
    | Apply(mine: Name, existing: Option<Name>, build: Builder, life: nat)
    | Restore(lock: Name, luck: Luck, life: nat)
    | Sweep(order: seq<Name>, alive: nat -> bool, lucks: Name -> Luck, life: nat)
    | Dies(pid: nat)
    | Write(content: Option<Bytes>)

  predicate Enabled(w: World, e: Event) {
    match e
    case Apply(mine, existing, _, _) => Finds(w.dir, existing) && mine !in w.used
    case Restore(lock, _, _) => lock in w.handles
    case Sweep(order, _, _, _) => (forall n :: n in order ==> n in w.dir.locks) && (forall n :: n in w.dir.locks ==> n in order)
    case Dies(_) => true
    case Write(_) => true
  }

  function Next(w: World, e: Event): World
    requires Enabled(w, e)
  {
    match e
    case Apply(mine, existing, build, life) =>
      var states := ApplyStates(w.dir, existing, mine, build);
      var done := Content(w.dir, existing, mine, build).Some? && life >= |states|;
      w.(dir := Stopped(w.dir, states, life), used := w.used + {mine},
         handles := if done then w.handles[mine := Held(NoOriginal(w.dir, existing), false)] else w.handles)
    case Restore(lock, luck, life) =>
      var h := w.handles[lock];
      w.(dir := if h.restored then w.dir else Stopped(w.dir, RestoreStates(w.dir, lock, h.noOriginal, luck), life),
         handles := w.handles[lock := h.(restored := true)])
    case Sweep(order, alive, luck, life) => w.(dir := Stopped(w.dir, SweepStates(w.dir, order, alive, luck), life))
    case Dies(pid) => w.(handles := map n | n in w.handles && n.pid != Some(pid) :: w.handles[n])
    case Write(content) =>
      w.(dir := w.dir.(target := content), original := if w.dir.locks == map[] then content else w.original)
  }

  /** All events can happen one after the other. */
  predicate Possible(w: World, run: seq<Event>)
    decreases |run|, 0
  {
    run == [] || (Possible(w, run[..|run| - 1]) && Enabled(After(w, run[..|run| - 1]), run[|run| - 1]))
  }

  function After(w: World, run: seq<Event>): World
    requires Possible(w, run)
    decreases |run|, 1
  {
    if run == [] then w else Next(After(w, run[..|run| - 1]), run[|run| - 1])
  }

  // --------------------------------------------------------- the steps, told directly

  lemma ApplyMeans(dir: Dir, existing: Option<Name>, mine: Name, build: Builder, life: nat)
    requires Finds(dir, existing)
    ensures var states := ApplyStates(dir, existing, mine, build);
            ApplySpec(dir, life, existing, mine, build, Stopped(dir, states, life), Content(dir, existing, mine, build).Some? && life >= |states|)
  {
    var content := Content(dir, existing, mine, build);
    if content.Some? {
      assert content.value[..|content.value|] == content.value;
      if life >= |content.value| + 2 { assert Stopped(dir, ApplyStates(dir, existing, mine, build), life).target == content; }
    }
  }

  lemma RestoreMeans(dir: Dir, lock: Name, noOriginal: bool, luck: Luck, life: nat)
    ensures RestoreSpec(dir, life, lock, noOriginal, luck, Stopped(dir, RestoreStates(dir, lock, noOriginal, luck), life))
  {
  }

  /** A step patches as an apply does, and leaves a handle that knows whether the lock it
      claimed was empty or no file was there; gives back as a restore does, once a handle; a
      sweep touches neither handles nor the original; a death takes the handles of the
      process; a write is to the target, and is the original if there is no lock. */
  lemma StepMeans(w: World, e: Event)
    requires Enabled(w, e) && forall n :: n in w.handles ==> n in w.used
    ensures var t := Next(w, e);
            match e
            case Apply(mine, existing, build, life) =>
              && ApplySpec(w.dir, life, existing, mine, build, t.dir, mine in t.handles)
              && t.original == w.original && t.used == w.used + {mine}
              && (forall n :: n != mine ==> (n in t.handles <==> n in w.handles))
              && (forall n :: n in w.handles ==> t.handles[n] == w.handles[n])
              && (mine in t.handles ==> t.handles[mine] == Held(
                    if existing.Some? then existing.value in w.dir.locks && w.dir.locks[existing.value] == [] else w.dir.target.None?, false))
            case Restore(lock, luck, life) =>
              && (if w.handles[lock].restored then t.dir == w.dir
                  else RestoreSpec(w.dir, life, lock, w.handles[lock].noOriginal, luck, t.dir))
              && t.original == w.original && t.used == w.used
              && t.handles == w.handles[lock := Held(w.handles[lock].noOriginal, true)]
            case Sweep(order, alive, _, _) =>
              && t.handles == w.handles && t.original == w.original && t.used == w.used
              && ((forall n :: n in w.dir.locks ==> n.pid.Some? && alive(n.pid.value)) ==> t.dir == w.dir)
            case Dies(pid) =>
              && t.dir == w.dir && t.original == w.original && t.used == w.used
              && (forall n :: n in t.handles <==> n in w.handles && n.pid != Some(pid))
              && (forall n :: n in t.handles ==> t.handles[n] == w.handles[n])
            case Write(content) =>
              && t.dir == Dir(content, w.dir.locks) && t.handles == w.handles && t.used == w.used
              && t.original == if w.dir.locks == map[] then content else w.original
  {
    match e
    case Apply(mine, existing, build, life) => ApplyMeans(w.dir, existing, mine, build, life);
    case Restore(lock, luck, life) => RestoreMeans(w.dir, lock, w.handles[lock].noOriginal, luck, life);
    case Sweep(order, alive, luck, life) =>
      if forall n :: n in w.dir.locks ==> n.pid.Some? && alive(n.pid.value) { SweepSpares(w.dir, order, alive, luck); }
    case Dies(_) =>
    case Write(_) =>
  }

  lemma {:induction false} SweepSpares(dir: Dir, order: seq<Name>, alive: nat -> bool, luck: Name -> Luck)
    requires forall n :: n in order ==> n.pid.Some? && alive(n.pid.value)
    ensures SweepStates(dir, order, alive, luck) == []
  {
    if order != [] { SweepSpares(dir, order[..|order| - 1], alive, luck); }
  }

  // ------------------------------------------------------------------- consistency

  /** How a lock's bytes stand for the original. */
  function Encode(original: Option<Bytes>): Bytes {
    if original.Some? then original.value else []
  }

  /** The original is in the target, or in the one lock. */
  ghost predicate Consistent(dir: Dir, original: Option<Bytes>) {
    && (dir.locks == map[] ==> dir.target == original)
    && (forall n :: n in dir.locks ==> dir.locks[n] == Encode(original))
    && (forall m, n :: m in dir.locks && n in dir.locks ==> m == n)
  }

  /** What an operation's states keep, from its first to its last. */
  ghost predicate AllConsistent(states: seq<Dir>, original: Option<Bytes>) {
    forall i :: 0 <= i < |states| ==> Consistent(states[i], original)
  }

  /** Everything `apply` goes through is consistent, and unless an empty file was there
      its builder is shown the original. */
  lemma ApplyConsistent(dir: Dir, existing: Option<Name>, mine: Name, build: Builder, original: Option<Bytes>)
    requires Consistent(dir, original) && Finds(dir, existing) && mine !in dir.locks
    ensures AllConsistent(ApplyStates(dir, existing, mine, build), original)
    ensures original != Some([]) ==> Seen(dir, existing, mine) == original
    ensures original != Some([]) ==> (NoOriginal(dir, existing) <==> original.None?)
  {
    var backed := BackedUp(dir, existing, mine);
    var states := ApplyStates(dir, existing, mine, build);
    assert mine in backed.locks;
    forall i | 0 <= i < |states| ensures Consistent(states[i], original) {
      assert states[i].locks == backed.locks;
    }
  }

  /** Reverting the lock with this luck takes an empty lock away and leaves the target. */
  predicate Strands(dir: Dir, lock: Name, luck: Luck) {
    lock in dir.locks && dir.locks[lock] == [] && dir.target.Some? && !luck.target && luck.lock
  }

  lemma RevertConsistent(dir: Dir, lock: Name, luck: Luck, original: Option<Bytes>)
    requires Consistent(dir, original) && original != Some([]) && !Strands(dir, lock, luck)
    ensures AllConsistent(RevertStates(dir, lock, luck), original)
    ensures var last := Last(dir, RevertStates(dir, lock, luck));
            Consistent(last, original) && forall n, l :: Strands(last, n, l) ==> Strands(dir, n, l)
  {
    if lock in dir.locks { assert dir.locks - {lock} == map[]; }
  }

  lemma {:induction false} SweepConsistent(dir: Dir, order: seq<Name>, alive: nat -> bool, luck: Name -> Luck, original: Option<Bytes>)
    requires Consistent(dir, original) && original != Some([])
    requires forall n :: n in dir.locks && Stale(n, alive) ==> !Strands(dir, n, luck(n))
    ensures AllConsistent(SweepStates(dir, order, alive, luck), original)
    ensures var last := Last(dir, SweepStates(dir, order, alive, luck));
            Consistent(last, original) && forall n :: n in last.locks && Stale(n, alive) ==> !Strands(last, n, luck(n))
  {
    if order != [] {
      var before, lock := order[..|order| - 1], order[|order| - 1];
      SweepConsistent(dir, before, alive, luck, original);
      var at := Last(dir, SweepStates(dir, before, alive, luck));
      if Stale(lock, alive) { RevertConsistent(at, lock, luck(lock), original); }
    }
  }

  /** Only one lock is listed, and it strands the target. */
  lemma {:induction false} SweepStrands(dir: Dir, order: seq<Name>, alive: nat -> bool, luck: Name -> Luck, n: Name)
    requires Strands(dir, n, luck(n)) && Stale(n, alive) && dir.locks == map[n := []]
    requires order != [] && forall i :: 0 <= i < |order| ==> order[i] == n
    ensures SweepStates(dir, order, alive, luck) == [dir, dir.(locks := map[])]
  {
    var before := order[..|order| - 1];
    if before == [] {
      assert dir.locks - {n} == map[];
      assert SweepStates(dir, order, alive, luck) == [] + RevertStates(dir, n, luck(n));
    } else {
      SweepStrands(dir, before, alive, luck, n);
      assert SweepStates(dir, order, alive, luck) == SweepStates(dir, before, alive, luck);
    }
  }

  // ---------------------------------------------------------------------- invariant

  /** A handle still owning its lock knows whether there was an original. */
  ghost predicate HandleOk(w: World, n: Name)
    requires n in w.handles
  {
    n in w.used && (!w.handles[n].restored && n in w.dir.locks ==> (w.handles[n].noOriginal <==> w.original.None?))
  }

  ghost predicate Inv(w: World) {
    && w.original != Some([])
    && Consistent(w.dir, w.original)
    && (forall n :: n in w.dir.locks ==> n in w.used)
    && (forall n :: n in w.handles ==> HandleOk(w, n))
  }

  /** Nobody leaves an empty file where there is no lock. */
  predicate NeverEmpty(w: World, e: Event) {
    e.Write? && w.dir.locks == map[] ==> e.content != Some([])
  }

  lemma ApplyKeeps(w: World, mine: Name, existing: Option<Name>, build: Builder, life: nat)
    requires Inv(w) && Enabled(w, Apply(mine, existing, build, life))
    ensures Inv(Next(w, Apply(mine, existing, build, life)))
  {
    ApplyConsistent(w.dir, existing, mine, build, w.original);
    var next := Next(w, Apply(mine, existing, build, life));
    forall n | n in next.handles ensures HandleOk(next, n) {
      if n != mine { assert HandleOk(w, n); }
    }
  }

  lemma {:induction false} SweepLocks(dir: Dir, order: seq<Name>, alive: nat -> bool, luck: Name -> Luck)
    ensures forall i, n :: 0 <= i < |SweepStates(dir, order, alive, luck)| && n in SweepStates(dir, order, alive, luck)[i].locks ==> n in dir.locks
  {
    if order != [] { SweepLocks(dir, order[..|order| - 1], alive, luck); }
  }

  /** There was no original; the operation takes the lock that says so, and leaves the
      patched target, for its deletion fails and nothing stops what comes after. */
  predicate LeavesPatch(w: World, e: Event) {
    match e
    case Restore(lock, luck, life) => lock in w.handles && !w.handles[lock].restored && life >= 2 && Strands(w.dir, lock, luck)
    case Sweep(order, alive, luck, life) =>
      life >= 2 && exists n :: n in w.dir.locks && (n.pid.None? || !alive(n.pid.value)) && Strands(w.dir, n, luck(n))
    case _ => false
  }

  lemma OnlyLock(w: World, order: seq<Name>, n: Name)
    requires Inv(w) && (forall m :: m in order ==> m in w.dir.locks) && (forall m :: m in w.dir.locks ==> m in order)
    requires n in w.dir.locks
    ensures w.dir.locks == map[n := w.dir.locks[n]] && order != [] && forall i :: 0 <= i < |order| ==> order[i] == n
  {
    forall i | 0 <= i < |order| ensures order[i] == n { assert order[i] in order; }
  }

  lemma SweepStrandsPatch(w: World, order: seq<Name>, alive: nat -> bool, luck: Name -> Luck, life: nat, n: Name)
    requires Inv(w) && Enabled(w, Sweep(order, alive, luck, life))
    requires n in w.dir.locks && Stale(n, alive) && Strands(w.dir, n, luck(n))
    ensures Inv(Next(w, Sweep(order, alive, luck, life))) <==> !LeavesPatch(w, Sweep(order, alive, luck, life))
  {
    OnlyLock(w, order, n);
    SweepStrands(w.dir, order, alive, luck, n);
    assert SweepStates(w.dir, order, alive, luck) == [w.dir, w.dir.(locks := map[])];
  }

  lemma SweepKeeps(w: World, order: seq<Name>, alive: nat -> bool, luck: Name -> Luck, life: nat)
    requires Inv(w) && Enabled(w, Sweep(order, alive, luck, life))
    requires forall n :: n in w.dir.locks && Stale(n, alive) ==> !Strands(w.dir, n, luck(n))
    ensures Inv(Next(w, Sweep(order, alive, luck, life))) && !LeavesPatch(w, Sweep(order, alive, luck, life))
  {
    SweepLocks(w.dir, order, alive, luck);
    SweepConsistent(w.dir, order, alive, luck, w.original);
  }

  lemma SweepKeepsIff(w: World, order: seq<Name>, alive: nat -> bool, luck: Name -> Luck, life: nat)
    requires Inv(w) && Enabled(w, Sweep(order, alive, luck, life))
    ensures Inv(Next(w, Sweep(order, alive, luck, life))) <==> !LeavesPatch(w, Sweep(order, alive, luck, life))
  {
    if n :| n in w.dir.locks && Stale(n, alive) && Strands(w.dir, n, luck(n)) {
      SweepStrandsPatch(w, order, alive, luck, life, n);
    } else {
      SweepKeeps(w, order, alive, luck, life);
    }
  }

  lemma RestoreKeepsIff(w: World, lock: Name, luck: Luck, life: nat)
    requires Inv(w) && Enabled(w, Restore(lock, luck, life))
    ensures Inv(Next(w, Restore(lock, luck, life))) <==> !LeavesPatch(w, Restore(lock, luck, life))
  {
    assert HandleOk(w, lock);
    if lock in w.dir.locks { assert w.dir.locks - {lock} == map[]; }
  }

  /** Any one operation, wherever it stops, keeps all this, unless it leaves the patch. */
  lemma StepKeepsIff(w: World, e: Event)
    requires Inv(w) && Enabled(w, e) && NeverEmpty(w, e)
    ensures Inv(Next(w, e)) <==> !LeavesPatch(w, e)
  {
    match e
    case Apply(mine, existing, build, life) => ApplyKeeps(w, mine, existing, build, life);
    case Restore(lock, luck, life) => RestoreKeepsIff(w, lock, luck, life);
    case Sweep(order, alive, luck, life) => SweepKeepsIff(w, order, alive, luck, life);
    case Dies(_) =>
    case Write(content) =>
  }

  /** No unlocked moment of the run leaves an empty target behind. */
  predicate LeavesNoEmpty(w: World, run: seq<Event>)
    requires Possible(w, run)
  {
    run == [] || (LeavesNoEmpty(w, run[..|run| - 1]) && NeverEmpty(After(w, run[..|run| - 1]), run[|run| - 1]))
  }

  /** No operation of the run leaves a patch behind. */
  predicate LeavesNoPatch(w: World, run: seq<Event>)
    requires Possible(w, run)
  {
    run == [] || (LeavesNoPatch(w, run[..|run| - 1]) && !LeavesPatch(After(w, run[..|run| - 1]), run[|run| - 1]))
  }

  /** Crash consistency: whatever happens, the original is never lost. */
  lemma {:induction false} RunKeeps(w: World, run: seq<Event>)
    requires Inv(w) && Possible(w, run) && LeavesNoEmpty(w, run) && LeavesNoPatch(w, run)
    ensures Inv(After(w, run))
  {
    if run != [] {
      RunKeeps(w, run[..|run| - 1]);
      StepKeepsIff(After(w, run[..|run| - 1]), run[|run| - 1]);
    }
  }

  // ------------------------------------------------------------------ consequences

  /** Luck enough to restore: only without an original does it take any. */
  predicate Clears(dir: Dir, original: Option<Bytes>, luck: Luck) {
    original.Some? || (luck.lock && (luck.target || dir.target.None?))
  }

  /** The owner of the lock restores exactly the original, and leaves no lock. */
  lemma OwnerRestores(w: World, lock: Name, luck: Luck, life: nat)
    requires Inv(w) && lock in w.handles && !w.handles[lock].restored && lock in w.dir.locks && life >= 2
    ensures Next(w, Restore(lock, luck, life)).dir == Dir(w.original, map[]) <==> Clears(w.dir, w.original, luck)
  {
    assert HandleOk(w, lock);
    assert w.dir.locks - {lock} == map[];
  }

  /** A handle whose lock was claimed or swept, or that was restored before, changes
      nothing, now or at any later time: its name never comes back. */
  lemma SpentRestoreIsNoOp(w: World, lock: Name, luck: Luck, life: nat)
    requires lock in w.handles && (w.handles[lock].restored || lock !in w.dir.locks)
    ensures Next(w, Restore(lock, luck, life)).dir == w.dir
  {
  }

  lemma {:induction false} SpentStaysSpent(w: World, run: seq<Event>, lock: Name)
    requires (forall n :: n in w.dir.locks ==> n in w.used) && Possible(w, run)
    requires lock in w.used && lock !in w.dir.locks
    ensures forall n :: n in After(w, run).dir.locks ==> n in After(w, run).used
    ensures lock in After(w, run).used && lock !in After(w, run).dir.locks
  {
    if run != [] {
      SpentStaysSpent(w, run[..|run| - 1], lock);
      NoLockReturns(After(w, run[..|run| - 1]), run[|run| - 1]);
    }
  }

  lemma NoLockReturns(w: World, e: Event)
    requires Enabled(w, e)
    ensures w.used <= Next(w, e).used
    ensures forall n :: n in Next(w, e).dir.locks ==> n in w.dir.locks || (n in Next(w, e).used && n !in w.used)
  {
    match e
    case Sweep(order, alive, luck, _) => SweepLocks(w.dir, order, alive, luck);
    case _ =>
  }

  /** The patcher that comes next claims whatever lock there is, is shown the original and
      owns the only lock. */
  lemma ApplyClaims(w: World, mine: Name, existing: Option<Name>, build: Builder, life: nat)
    requires Inv(w) && Enabled(w, Apply(mine, existing, build, life)) && build(w.original).Some?
    requires life >= |ApplyStates(w.dir, existing, mine, build)|
    ensures var next := Next(w, Apply(mine, existing, build, life));
            && next.dir == Dir(build(w.original), map[mine := Encode(w.original)])
            && next.original == w.original && mine in next.handles && !next.handles[mine].restored
  {
    ApplyConsistent(w.dir, existing, mine, build, w.original);
    var content := build(w.original).value;
    var backed := BackedUp(w.dir, existing, mine);
    assert Written(backed, content)[|content|] == backed.(target := Some(content[..|content|]));
    assert content[..|content|] == content;
  }

  /** From any state a run can reach, patching once more and restoring brings the
      original back. */
  lemma AlwaysRecoverable(w: World, mine: Name, existing: Option<Name>, build: Builder)
    requires Inv(w) && Enabled(w, Apply(mine, existing, build, 0)) && build(w.original).Some?
    ensures var life := |ApplyStates(w.dir, existing, mine, build)|;
            var patched := Next(w, Apply(mine, existing, build, life));
            && Enabled(patched, Restore(mine, WORKS, 2))
            && Next(patched, Restore(mine, WORKS, 2)).dir == Dir(w.original, map[])
  {
    var life := |ApplyStates(w.dir, existing, mine, build)|;
    ApplyClaims(w, mine, existing, build, life);
    ApplyKeeps(w, mine, existing, build, life);
    OwnerRestores(Next(w, Apply(mine, existing, build, life)), mine, WORKS, 2);
  }

  lemma {:induction false} LiveLocksStay(dir: Dir, order: seq<Name>, alive: nat -> bool, luck: Name -> Luck)
    requires forall n :: n in order ==> !Stale(n, alive)
    ensures SweepStates(dir, order, alive, luck) == []
  {
    if order != [] { LiveLocksStay(dir, order[..|order| - 1], alive, luck); }
  }

  /** A stale lock is reverted where it is listed first; then there is none. */
  lemma {:induction false} StaleLockGoes(dir: Dir, order: seq<Name>, alive: nat -> bool, luck: Name -> Luck, n: Name, original: Option<Bytes>)
    requires Consistent(dir, original) && original != Some([]) && n in dir.locks && Stale(n, alive)
    requires order != [] && forall i :: 0 <= i < |order| ==> order[i] == n
    ensures Last(dir, SweepStates(dir, order, alive, luck)) == Dir(original, map[]) <==> Clears(dir, original, luck(n))
  {
    StaleLockSwept(dir, order, alive, luck, n);
    assert dir.locks - {n} == map[];
  }

  /** However often it is listed. */
  lemma {:induction false} StaleLockSwept(dir: Dir, order: seq<Name>, alive: nat -> bool, luck: Name -> Luck, n: Name)
    requires n in dir.locks && Stale(n, alive) && order != [] && forall i :: 0 <= i < |order| ==> order[i] == n
    ensures Last(dir, SweepStates(dir, order, alive, luck)) == RevertStates(dir, n, luck(n))[1]
  {
    var before := order[..|order| - 1];
    if before == [] {
      assert SweepStates(dir, order, alive, luck) == [] + RevertStates(dir, n, luck(n));
    } else {
      StaleLockSwept(dir, before, alive, luck, n);
    }
  }

  /** An unstopped sweep puts the original back, if its deletions work, when the lock names
      no owner or a dead one, and changes nothing when every lock there is names a living
      owner. */
  lemma {:induction false} SweepHealsExactly(w: World, order: seq<Name>, alive: nat -> bool, luck: Name -> Luck, life: nat)
    requires Inv(w) && Enabled(w, Sweep(order, alive, luck, life)) && life >= |SweepStates(w.dir, order, alive, luck)|
    ensures var next := Next(w, Sweep(order, alive, luck, life)).dir;
            && (forall n :: n in w.dir.locks && (n.pid.None? || !alive(n.pid.value)) ==>
                  (next == Dir(w.original, map[]) <==> Clears(w.dir, w.original, luck(n))))
            && ((forall n :: n in w.dir.locks ==> n.pid.Some? && alive(n.pid.value)) ==> next == w.dir)
  {
    var states := SweepStates(w.dir, order, alive, luck);
    assert Stopped(w.dir, states, life) == Last(w.dir, states);
    if n :| n in w.dir.locks && Stale(n, alive) {
      OnlyLock(w, order, n);
      StaleLockGoes(w.dir, order, alive, luck, n, w.original);
    } else {
      LiveLocksStay(w.dir, order, alive, luck);
    }
  }

  // --------------------------------------------------------------- the empty original

  /** Before anything was ever patched. */
  function Fresh(original: Option<Bytes>): World {
    World(Dir(original, map[]), original, map[], {})
  }

  /** Nobody but the protocol touches the target while it is unlocked. */
  predicate LeftAlone(w: World, run: seq<Event>)
    requires Possible(w, run)
  {
    run == [] || (LeftAlone(w, run[..|run| - 1])
                  && (run[|run| - 1].Write? ==> After(w, run[..|run| - 1]).dir.locks != map[]))
  }

  lemma {:induction false} LeftAloneFacts(w: World, run: seq<Event>)
    requires Possible(w, run) && LeftAlone(w, run)
    ensures LeavesNoEmpty(w, run) && After(w, run).original == w.original
  {
    if run != [] { LeftAloneFacts(w, run[..|run| - 1]); }
  }

  /** All deletions of the operation go through. */
  ghost predicate Deletes(e: Event) {
    (e.Restore? ==> e.luck == WORKS) && (e.Sweep? ==> forall n :: e.lucks(n) == WORKS)
  }

  ghost predicate AllDelete(run: seq<Event>) {
    forall i :: 0 <= i < |run| ==> Deletes(run[i])
  }

  lemma {:induction false} DeletedIsNotLeft(w: World, run: seq<Event>)
    requires Possible(w, run) && AllDelete(run)
    ensures LeavesNoPatch(w, run)
  {
    if run != [] { DeletedIsNotLeft(w, run[..|run| - 1]); }
  }

  /** With an original there is nothing to leave. */
  lemma {:induction false} OriginalIsNotLeft(w: World, run: seq<Event>)
    requires Inv(w) && w.original.Some? && Possible(w, run) && LeftAlone(w, run)
    ensures LeavesNoPatch(w, run) && Inv(After(w, run)) && After(w, run).original == w.original
  {
    if run != [] {
      var before := run[..|run| - 1];
      OriginalIsNotLeft(w, before);
      StepKeepsIff(After(w, before), run[|run| - 1]);
    }
  }

  /** No run of the protocol loses this original, whatever deletions fail ... */
  ghost predicate AlwaysSafe(original: Option<Bytes>) {
    forall run :: Possible(Fresh(original), run) && LeftAlone(Fresh(original), run) ==>
      Consistent(After(Fresh(original), run).dir, original)
  }

  /** ... or if none does. */
  ghost predicate Safe(original: Option<Bytes>) {
    forall run :: Possible(Fresh(original), run) && LeftAlone(Fresh(original), run) && AllDelete(run) ==>
      Consistent(After(Fresh(original), run).dir, original)
  }

  const A := Name(Some(1), 1)
  const B := Name(Some(1), 2)

  /** A builder that writes an empty file. */
  function Blank(original: Option<Bytes>): Option<Bytes> { Some([]) }

  lemma Extend(w: World, run: seq<Event>, e: Event) returns (more: seq<Event>)
    requires Possible(w, run) && LeftAlone(w, run) && Enabled(After(w, run), e) && !e.Write?
    ensures Possible(w, more) && LeftAlone(w, more) && After(w, more) == Next(After(w, run), e)
    ensures AllDelete(run) && Deletes(e) ==> AllDelete(more)
  {
    more := run + [e];
    assert more[..|run|] == run;
  }

  /** The empty original moved aside: its lock reads as "there was none". */
  lemma FirstPatch() returns (run: seq<Event>)
    ensures Possible(Fresh(Some([])), run) && LeftAlone(Fresh(Some([])), run) && AllDelete(run)
    ensures var w := After(Fresh(Some([])), run); w.dir == Dir(Some([]), map[A := []]) && w.used == {A}
  {
    var w := Fresh(Some([]));
    assert ApplyStates(w.dir, None, A, Blank) == [Dir(None, map[A := []]), Dir(Some([]), map[A := []])];
    run := Extend(w, [], Apply(A, None, Blank, 3));
  }

  /** So the claimer takes it that there was no original. */
  lemma SecondPatch() returns (run: seq<Event>)
    ensures Possible(Fresh(Some([])), run) && LeftAlone(Fresh(Some([])), run) && AllDelete(run)
    ensures var w := After(Fresh(Some([])), run);
            w.dir == Dir(Some([]), map[B := []]) && B in w.handles && w.handles[B] == Held(true, false)
  {
    run := FirstPatch();
    var w := After(Fresh(Some([])), run);
    Claimed(w);
    run := Extend(Fresh(Some([])), run, Apply(B, Some(A), Blank, 3));
  }

  lemma Claimed(w: World)
    requires w.dir == Dir(Some([]), map[A := []]) && w.used == {A}
    ensures Enabled(w, Apply(B, Some(A), Blank, 3))
    ensures var next := Next(w, Apply(B, Some(A), Blank, 3));
            next.dir == Dir(Some([]), map[B := []]) && B in next.handles && next.handles[B] == Held(true, false)
  {
    assert w.dir.locks - {A} == map[];
    assert ApplyStates(w.dir, Some(A), B, Blank) == [Dir(Some([]), map[B := []]), Dir(Some([]), map[B := []])];
  }

  /** And deletes the target when it restores. */
  lemma LastRestore(w: World)
    requires w.dir == Dir(Some([]), map[B := []]) && B in w.handles && w.handles[B] == Held(true, false)
    ensures Next(w, Restore(B, WORKS, 2)).dir == Dir(None, map[])
  {
    assert w.dir.locks - {B} == map[];
  }

  /** An empty original is lost when its lock is claimed. */
  lemma EmptyOriginalLost()
    ensures !Safe(Some([]))
  {
    var run := SecondPatch();
    LastRestore(After(Fresh(Some([])), run));
    run := Extend(Fresh(Some([])), run, Restore(B, WORKS, 2));
    assert !Consistent(After(Fresh(Some([])), run).dir, Some([]));
  }

  /** The protocol loses no original exactly when the original is not an empty file. */
  lemma SafeIff(original: Option<Bytes>)
    ensures Safe(original) <==> original != Some([])
  {
    if original == Some([]) {
      EmptyOriginalLost();
    } else {
      forall run | Possible(Fresh(original), run) && LeftAlone(Fresh(original), run) && AllDelete(run)
        ensures Consistent(After(Fresh(original), run).dir, original)
      {
        LeftAloneFacts(Fresh(original), run);
        DeletedIsNotLeft(Fresh(original), run);
        RunKeeps(Fresh(original), run);
      }
    }
  }

  lemma OnlyPatch(w: World)
    requires w == Fresh(None)
    ensures Enabled(w, Apply(A, None, Blank, 2))
    ensures var next := Next(w, Apply(A, None, Blank, 2));
            next.dir == Dir(Some([]), map[A := []]) && A in next.handles && next.handles[A] == Held(true, false)
  {
    assert ApplyStates(w.dir, None, A, Blank) == [Dir(None, map[A := []]), Dir(Some([]), map[A := []])];
  }

  lemma OnlyRestore(w: World)
    requires w.dir == Dir(Some([]), map[A := []]) && A in w.handles && w.handles[A] == Held(true, false)
    ensures Next(w, Restore(A, Luck(false, true), 2)).dir == Dir(Some([]), map[])
  {
    assert w.dir.locks - {A} == map[];
  }

  /** Where there was no file, a restore whose deletion fails leaves the patched one. */
  lemma PatchLeft()
    ensures !AlwaysSafe(None)
  {
    var w := Fresh(None);
    OnlyPatch(w);
    var run := Extend(w, [], Apply(A, None, Blank, 2));
    OnlyRestore(After(w, run));
    run := Extend(w, run, Restore(A, Luck(false, true), 2));
    assert !Consistent(After(w, run).dir, None);
  }

  /** With deletions that may fail, it must also have been there. */
  lemma AlwaysSafeIff(original: Option<Bytes>)
    ensures AlwaysSafe(original) <==> original.Some? && original != Some([])
  {
    if original == Some([]) {
      EmptyOriginalLost();
    } else if original.None? {
      PatchLeft();
    } else {
      forall run | Possible(Fresh(original), run) && LeftAlone(Fresh(original), run)
        ensures Consistent(After(Fresh(original), run).dir, original)
      {
        OriginalIsNotLeft(Fresh(original), run);
      }
    }
  }

  /** Without a claim or a sweep in between, even an empty original comes back. */
  lemma UnclaimedRestores(original: Option<Bytes>, mine: Name, build: Builder, luck: Luck)
    requires build(original).Some?
    ensures var w := Fresh(original);
            var patched := Next(w, Apply(mine, None, build, |ApplyStates(w.dir, None, mine, build)|));
            mine in patched.handles
            && (Next(patched, Restore(mine, luck, 2)).dir == w.dir <==> original.Some? || luck == WORKS)
  {
    var w := Fresh(original);
    var states := ApplyStates(w.dir, None, mine, build);
    assert states[|states| - 1].locks == map[mine := Encode(original)];
    assert map[mine := Encode(original)] - {mine} == map[];
  }
}
