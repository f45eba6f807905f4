/** Patching a file with rename-as-backup (rodeo-cli/filepatch/src/lib.rs). A directory
    holds the target and its lock files; an operation may stop, by a crash or an I/O
    error, between any two file-system steps, a write counting one step per byte; a deletion
    whose failure the source ignores may fail while the operation goes on. Whole
    operations do not overlap. */
module FilePatch {
  import opened Options

  type Byte = b: int | 0 <= b < 256
  type Bytes = seq<Byte>

  /** A lock file's name: its owner (none in names of the old form) and its UUID. */
  datatype Name = Name(pid: Option<nat>, uuid: nat)

  datatype Dir = Dir(target: Option<Bytes>, locks: map<Name, Bytes>)

  type Builder = Option<Bytes> -> Option<Bytes>

  /** Whether the deletions whose failure the source ignores go through. */
  datatype Luck = Luck(target: bool, lock: bool)

  const WORKS := Luck(true, true)

  // ------------------------------------------------------------------------- steps

  /** The directory after at most life of the steps leading through states. */
  function Stopped(dir: Dir, states: seq<Dir>, life: nat): Dir {
    if life == 0 || states == [] then dir
    else if life <= |states| then states[life - 1]
    else states[|states| - 1]
  }

  /** Writing content over the target: cut to nothing, then byte by byte. */
  function Written(dir: Dir, content: Bytes): seq<Dir> {
    seq(|content| + 1, i requires 0 <= i <= |content| => dir.(target := Some(content[..i])))
  }

  /** What `find_existing_lock` may answer: some lock if there is one. */
  predicate Finds(dir: Dir, existing: Option<Name>) {
    if existing.Some? then existing.value in dir.locks else dir.locks == map[]
  }

  /** The backing-up step of `apply`: claim the lock found, else move the target aside,
      else leave an empty sentinel. */
  function BackedUp(dir: Dir, existing: Option<Name>, mine: Name): Dir
    requires Finds(dir, existing)
  {
    if existing.Some? then dir.(locks := (dir.locks - {existing.value})[mine := dir.locks[existing.value]])
    else if dir.target.Some? then Dir(None, dir.locks[mine := dir.target.value])
    else dir.(locks := dir.locks[mine := []])
  }

  /** Whether `apply` takes it that there was no original. */
  predicate NoOriginal(dir: Dir, existing: Option<Name>)
    requires Finds(dir, existing)
  {
    if existing.Some? then dir.locks[existing.value] == [] else dir.target.None?
  }

  /** The original as `apply` hands it to the builder. */
  function Seen(dir: Dir, existing: Option<Name>, mine: Name): Option<Bytes>
    requires Finds(dir, existing)
  {
    if NoOriginal(dir, existing) then None else Some(BackedUp(dir, existing, mine).locks[mine])
  }

  function Content(dir: Dir, existing: Option<Name>, mine: Name, build: Builder): Option<Bytes>
    requires Finds(dir, existing)
  {
    build(Seen(dir, existing, mine))
  }

  function ApplyStates(dir: Dir, existing: Option<Name>, mine: Name, build: Builder): seq<Dir>
    requires Finds(dir, existing)
  {
    var backed := BackedUp(dir, existing, mine);
    var content := Content(dir, existing, mine, build);
    [backed] + if content.Some? then Written(backed, content.value) else []
  }

  function Cleared(dir: Dir, works: bool): Dir {
    if works then dir.(target := None) else dir
  }

  function Unlocked(dir: Dir, lock: Name, works: bool): Dir {
    if works then dir.(locks := dir.locks - {lock}) else dir
  }

  /** Delete the target, then the lock or move it back over the target. */
  function RestoreStates(dir: Dir, lock: Name, noOriginal: bool, luck: Luck): seq<Dir> {
    if lock !in dir.locks then [] else
      [Cleared(dir, luck.target),
       if noOriginal then Unlocked(Cleared(dir, luck.target), lock, luck.lock)
       else Dir(Some(dir.locks[lock]), dir.locks - {lock})]
  }

  /** `restore_from_lock`: an empty lock counts as no original. */
  function RevertStates(dir: Dir, lock: Name, luck: Luck): seq<Dir> {
    RestoreStates(dir, lock, lock in dir.locks && dir.locks[lock] == [], luck)
  }

  predicate Stale(lock: Name, alive: nat -> bool) {
    lock.pid.None? || !alive(lock.pid.value)
  }

  function Last(dir: Dir, states: seq<Dir>): Dir {
    if states == [] then dir else states[|states| - 1]
  }

  /** `sweep_stale` over the locks in the order they were listed. */
  function SweepStates(dir: Dir, order: seq<Name>, alive: nat -> bool, luck: Name -> Luck): seq<Dir> {
    if order == [] then [] else
      var before := SweepStates(dir, order[..|order| - 1], alive, luck);
      var lock := order[|order| - 1];
      before + if Stale(lock, alive) then RevertStates(Last(dir, before), lock, luck(lock)) else []
  }

  // -------------------------------------------------------------------- the program

  /** What `apply` leaves after at most life steps: the lock found is now mine, else the
      target's bytes are my lock, else an empty one is; the builder saw what was in the lock
      or the target, nothing if the lock was empty; as much of its answer as there were steps
      for is in the target, and without an answer the target is as it was, or moved aside. */
  ghost predicate ApplySpec(before: Dir, life: nat, existing: Option<Name>, mine: Name, build: Builder, after: Dir, done: bool) {
    if life == 0 then after == before && !done else
      var seen := if existing.None? then before.target
                  else if existing.value in before.locks && before.locks[existing.value] != [] then Some(before.locks[existing.value])
                  else None;
      var content := build(seen);
      && after.locks == (match existing
                         case Some(found) =>
                           if found in before.locks then (before.locks - {found})[mine := before.locks[found]] else before.locks
                         case None => map[mine := if before.target.Some? then before.target.value else []])
      && (content.None? || life == 1 ==> after.target == if existing.Some? then before.target else None)
      && (content.Some? && 2 <= life < |content.value| + 2 ==> after.target == Some(content.value[..life - 2]))
      && (content.Some? && life >= |content.value| + 2 ==> after.target == content)
      && (done <==> content.Some? && life >= |content.value| + 2)
  }

  /** What giving a lock back leaves after at most life steps: nothing changes without the
      lock; then the target is deleted, if that works; then the lock moves over it, or, when
      there was no original, is deleted, if that works. */
  ghost predicate RestoreSpec(before: Dir, life: nat, lock: Name, noOriginal: bool, luck: Luck, after: Dir) {
    if lock !in before.locks || life == 0 then after == before
    else if life == 1 then after == Dir(if luck.target then None else before.target, before.locks)
    else if !noOriginal then after == Dir(Some(before.locks[lock]), before.locks - {lock})
    else after == Dir(if luck.target then None else before.target, if luck.lock then before.locks - {lock} else before.locks)
  }

  /** The directory on disk, and how many more steps the running operation gets. */
  class Disk {
    var dir: Dir
    var life: nat

    constructor (start: Dir, steps: nat)
      ensures dir == start && life == steps
    {
      dir, life := start, steps;
    }

    /** One file-system step leading to next, unless the operation is stopped. */
    method Step(next: Dir) returns (ok: bool)
      modifies this
      ensures ok <==> old(life) > 0
      ensures ok ==> dir == next && life == old(life) - 1
      ensures !ok ==> dir == old(dir) && life == 0
    {
      ok := life > 0;
      if ok { dir, life := next, life - 1; }
    }

    method RenameLock(from: Name, to: Name) returns (ok: bool)
      requires from in dir.locks
      modifies this
      ensures ok <==> old(life) > 0
      ensures ok ==> dir == old(dir).(locks := (old(dir).locks - {from})[to := old(dir).locks[from]]) && life == old(life) - 1
      ensures !ok ==> dir == old(dir) && life == 0
    {
      ok := Step(dir.(locks := (dir.locks - {from})[to := dir.locks[from]]));
    }

    method MoveTargetToLock(to: Name) returns (ok: bool)
      requires dir.target.Some?
      modifies this
      ensures ok <==> old(life) > 0
      ensures ok ==> dir == Dir(None, old(dir).locks[to := old(dir).target.value]) && life == old(life) - 1
      ensures !ok ==> dir == old(dir) && life == 0
    {
      ok := Step(Dir(None, dir.locks[to := dir.target.value]));
    }

    method MoveLockToTarget(from: Name) returns (ok: bool)
      requires from in dir.locks
      modifies this
      ensures ok <==> old(life) > 0
      ensures ok ==> dir == Dir(Some(old(dir).locks[from]), old(dir).locks - {from}) && life == old(life) - 1
      ensures !ok ==> dir == old(dir) && life == 0
    {
      ok := Step(Dir(Some(dir.locks[from]), dir.locks - {from}));
    }

    method WriteSentinel(lock: Name) returns (ok: bool)
      modifies this
      ensures ok <==> old(life) > 0
      ensures ok ==> dir == old(dir).(locks := old(dir).locks[lock := []]) && life == old(life) - 1
      ensures !ok ==> dir == old(dir) && life == 0
    {
      ok := Step(dir.(locks := dir.locks[lock := []]));
    }

    /** A deletion that may fail; what was started goes on either way. */
    method RemoveTarget(works: bool) returns (ok: bool)
      modifies this
      ensures ok <==> old(life) > 0
      ensures ok ==> dir == Cleared(old(dir), works) && life == old(life) - 1
      ensures !ok ==> dir == old(dir) && life == 0
    {
      ok := Step(if works then dir.(target := None) else dir);
    }

    method RemoveLock(lock: Name, works: bool) returns (ok: bool)
      modifies this
      ensures ok <==> old(life) > 0
      ensures ok ==> dir == Unlocked(old(dir), lock, works) && life == old(life) - 1
      ensures !ok ==> dir == old(dir) && life == 0
    {
      ok := Step(if works then dir.(locks := dir.locks - {lock}) else dir);
    }

    method WriteTarget(content: Bytes) returns (ok: bool)
      modifies this
      ensures ok <==> old(life) >= |content| + 1
      ensures dir == Stopped(old(dir), Written(old(dir), content), old(life))
      ensures life == if ok then old(life) - (|content| + 1) else 0
      ensures dir.locks == old(dir).locks
      ensures dir.target == if old(life) == 0 then old(dir).target else if ok then Some(content) else Some(content[..old(life) - 1])
    {
      ok := Step(dir.(target := Some([])));
      if !ok { return; }
      assert content[..0] == [];
      for i := 0 to |content|
        invariant life == old(life) - (i + 1)
        invariant dir == old(dir).(target := Some(content[..i]))
      {
        ok := Step(dir.(target := Some(content[..i] + [content[i]])));
        assert content[..i + 1] == content[..i] + [content[i]];
        if !ok { return; }
      }
      assert content[..|content|] == content;
    }

    method FindExisting() returns (existing: Option<Name>)
      ensures Finds(dir, existing)
    {
      existing := None;
      if dir.locks != map[] {
        var n :| n in dir.locks;
        existing := Some(n);
      }
    }

    /** The backing-up step. */
    method BackUp(mine: Name) returns (ok: bool, noOriginal: bool, ghost existing: Option<Name>)
      modifies this
      ensures Finds(old(dir), existing) && noOriginal == NoOriginal(old(dir), existing)
      ensures ok <==> old(life) > 0
      ensures ok ==> dir == BackedUp(old(dir), existing, mine) && life == old(life) - 1
      ensures !ok ==> dir == old(dir) && life == 0
      ensures existing.None? <==> old(dir).locks == map[]
      ensures ok && existing.Some? ==>
                dir == Dir(old(dir).target, (old(dir).locks - {existing.value})[mine := old(dir).locks[existing.value]])
                && (noOriginal <==> old(dir).locks[existing.value] == [])
      ensures ok && existing.None? ==>
                dir == Dir(None, map[mine := if old(dir).target.Some? then old(dir).target.value else []])
                && (noOriginal <==> old(dir).target.None?)
    {
      var found := FindExisting();
      existing := found;
      if found.Some? {
        noOriginal := |dir.locks[found.value]| == 0;
        ok := RenameLock(found.value, mine);
      } else if dir.target.Some? {
        noOriginal := false;
        ok := MoveTargetToLock(mine);
      } else {
        noOriginal := true;
        ok := WriteSentinel(mine);
      }
    }

    /** `apply`: no handle when it was stopped or the builder failed. */
    method Apply(mine: Name, build: Builder) returns (h: Option<Handle>, ghost existing: Option<Name>)
      modifies this
      ensures Finds(old(dir), existing)
      ensures dir == Stopped(old(dir), ApplyStates(old(dir), existing, mine, build), old(life))
      ensures h.Some? <==> Content(old(dir), existing, mine, build).Some?
                           && old(life) >= |ApplyStates(old(dir), existing, mine, build)|
      ensures h.Some? ==> fresh(h.value) && h.value.lock == mine && !h.value.restored
                          && h.value.noOriginal == NoOriginal(old(dir), existing)
      ensures ApplySpec(old(dir), old(life), existing, mine, build, dir, h.Some?)
    {
      var ok, noOriginal;
      ok, noOriginal, existing := BackUp(mine);
      if !ok { return None, existing; }
      var seen := if noOriginal then None else Some(dir.locks[mine]);
      var content := build(seen);
      if content.None? { return None, existing; }
      ok := WriteTarget(content.value);
      if !ok { return None, existing; }
      var made := new Handle(mine, noOriginal);
      h := Some(made);
    }

    method RestoreFromLock(lock: Name, luck: Luck) returns (ok: bool)
      modifies this
      ensures ok <==> old(life) >= |RevertStates(old(dir), lock, luck)|
      ensures dir == Stopped(old(dir), RevertStates(old(dir), lock, luck), old(life))
      ensures life == if ok then old(life) - |RevertStates(old(dir), lock, luck)| else 0
      ensures RestoreSpec(old(dir), old(life), lock, lock in old(dir).locks && old(dir).locks[lock] == [], luck, dir)
    {
      if lock !in dir.locks { return true; }
      var sentinel := |dir.locks[lock]| == 0;
      ok := RemoveTarget(luck.target);
      if !ok { return; }
      if sentinel { ok := RemoveLock(lock, luck.lock); } else { ok := MoveLockToTarget(lock); }
    }

    /** `sweep_stale`, over the locks as listed; all of it when not stopped. */
    method SweepStale(order: seq<Name>, alive: nat -> bool, luck: Name -> Luck) returns (ok: bool, reverted: nat)
      modifies this
      ensures ok <==> old(life) >= |SweepStates(old(dir), order, alive, luck)|
      ensures dir == Stopped(old(dir), SweepStates(old(dir), order, alive, luck), old(life))
      ensures ok ==> reverted == |Leaks(order, alive)|
      ensures Leaks(order, alive) == {} ==> ok && reverted == 0 && dir == old(dir)
      ensures ok && (forall n :: luck(n) == Luck(true, true)) ==> SweptClean(old(dir), order, alive, dir)
    {
      SweepCounted(order, alive);
      SweepNone(dir, order, alive, luck);
      if forall n :: luck(n) == Luck(true, true) { SweepCleans(dir, order, alive, luck); }
      ok, reverted := RevertListed(order, alive, luck);
    }

    method RevertListed(order: seq<Name>, alive: nat -> bool, luck: Name -> Luck) returns (ok: bool, reverted: nat)
      modifies this
      ensures ok <==> old(life) >= |SweepStates(old(dir), order, alive, luck)|
      ensures dir == Stopped(old(dir), SweepStates(old(dir), order, alive, luck), old(life))
      ensures ok ==> reverted == StaleCount(order, alive)
    {
      ghost var d0, l0 := dir, life;
      reverted := 0;
      assert order[..0] == [];
      for i := 0 to |order|
        invariant dir == Last(d0, SweepStates(d0, order[..i], alive, luck))
        invariant l0 == life + |SweepStates(d0, order[..i], alive, luck)|
        invariant reverted == StaleCount(order[..i], alive)
      {
        assert order[..i + 1][..i] == order[..i] && order[..i + 1][i] == order[i];
        ghost var before := SweepStates(d0, order[..i], alive, luck);
        ghost var more := if Stale(order[i], alive) then RevertStates(dir, order[i], luck(order[i])) else [];
        StoppedConcat(d0, before, more, l0);
        if Stale(order[i], alive) {
          ok := RestoreFromLock(order[i], luck(order[i]));
          if !ok {
            SweepGrows(d0, order, alive, luck, i + 1);
            StoppedPrefix(d0, before + more, SweepStates(d0, order, alive, luck), l0);
            return;
          }
          reverted := reverted + 1;
        }
      }
      assert order[..|order|] == order;
      ok := true;
    }
  }

  /** A live patch. */
  class Handle {
    const lock: Name
    const noOriginal: bool
    var restored: bool

    constructor (lock: Name, noOriginal: bool)
      ensures this.lock == lock && this.noOriginal == noOriginal && !restored
    {
      this.lock, this.noOriginal, restored := lock, noOriginal, false;
    }

    /** Only the first call does anything, and only while the lock is still there. */
    method Restore(disk: Disk, luck: Luck)
      modifies this, disk
      ensures restored
      ensures disk.dir == if old(restored) then old(disk.dir)
                          else Stopped(old(disk.dir), RestoreStates(old(disk.dir), lock, noOriginal, luck), old(disk.life))
      ensures !old(restored) ==> RestoreSpec(old(disk.dir), old(disk.life), lock, noOriginal, luck, disk.dir)
    {
      if restored { return; }
      restored := true;
      if lock !in disk.dir.locks { return; }
      var ok := disk.RemoveTarget(luck.target);
      if !ok { return; }
      if noOriginal { ok := disk.RemoveLock(lock, luck.lock); } else { ok := disk.MoveLockToTarget(lock); }
    }
  }

  function StaleCount(order: seq<Name>, alive: nat -> bool): nat {
    if order == [] then 0 else
      StaleCount(order[..|order| - 1], alive) + if Stale(order[|order| - 1], alive) then 1 else 0
  }

  /** The positions of the locks listed without an owner or with a dead one. */
  ghost function Leaks(order: seq<Name>, alive: nat -> bool): set<int> {
    set i | 0 <= i < |order| && (order[i].pid.None? || !alive(order[i].pid.value))
  }

  /** The locks left are those not listed and those whose owner lives; and if lock k is the
      last leaked one, listed once, the target is what it held, or nothing if it was empty. */
  ghost predicate SweptClean(before: Dir, order: seq<Name>, alive: nat -> bool, after: Dir) {
    && after.locks == (map n | n in before.locks && (n !in order || (n.pid.Some? && alive(n.pid.value))) :: before.locks[n])
    && forall k :: LastLeak(before, order, alive, k) ==>
         after.target == if before.locks[order[k]] == [] then None else Some(before.locks[order[k]])
  }

  ghost predicate LastLeak(dir: Dir, order: seq<Name>, alive: nat -> bool, k: int) {
    && k in Leaks(order, alive) && order[k] in dir.locks && order[k] !in order[..k]
    && forall j :: j in Leaks(order, alive) ==> j <= k
  }

  lemma LeaksMore(order: seq<Name>, alive: nat -> bool)
    requires order != []
    ensures var n := |order| - 1;
            Leaks(order, alive) == Leaks(order[..n], alive) + if order[n].pid.None? || !alive(order[n].pid.value) then {n} else {}
  {
  }

  lemma {:induction false} SweepCounted(order: seq<Name>, alive: nat -> bool)
    ensures StaleCount(order, alive) == |Leaks(order, alive)|
  {
    if order == [] {
      assert Leaks(order, alive) == {};
    } else {
      SweepCounted(order[..|order| - 1], alive);
      LeaksMore(order, alive);
    }
  }

  lemma {:induction false} SweepNone(dir: Dir, order: seq<Name>, alive: nat -> bool, luck: Name -> Luck)
    ensures Leaks(order, alive) == {} ==> SweepStates(dir, order, alive, luck) == []
  {
    if order != [] {
      SweepNone(dir, order[..|order| - 1], alive, luck);
      LeaksMore(order, alive);
    }
  }

  lemma {:induction false} SweepCleans(dir: Dir, order: seq<Name>, alive: nat -> bool, luck: Name -> Luck)
    requires forall n :: luck(n) == Luck(true, true)
    ensures SweptClean(dir, order, alive, Last(dir, SweepStates(dir, order, alive, luck)))
  {
    if order != [] {
      var before, lock := order[..|order| - 1], order[|order| - 1];
      var mid := Last(dir, SweepStates(dir, before, alive, luck));
      assert order == before + [lock];
      SweepCleans(dir, before, alive, luck);
      assert luck(lock) == Luck(true, true);
      CleanMore(dir, before, lock, alive, mid);
      if !Stale(lock, alive) {
        assert SweepStates(dir, order, alive, luck) == SweepStates(dir, before, alive, luck);
      } else {
        StoppedConcat(dir, SweepStates(dir, before, alive, luck), RevertStates(mid, lock, luck(lock)), 0);
      }
    }
  }

  /** One more lock, reverted if it is leaked. */
  lemma CleanMore(dir: Dir, before: seq<Name>, lock: Name, alive: nat -> bool, mid: Dir)
    requires SweptClean(dir, before, alive, mid)
    ensures SweptClean(dir, before + [lock], alive,
              if Stale(lock, alive) then Last(mid, RevertStates(mid, lock, Luck(true, true))) else mid)
  {
    var order := before + [lock];
    assert order[..|before|] == before;
    LeaksMore(order, alive);
    var after := if Stale(lock, alive) then Last(mid, RevertStates(mid, lock, Luck(true, true))) else mid;
    forall k | LastLeak(dir, order, alive, k)
      ensures after.target == if dir.locks[order[k]] == [] then None else Some(dir.locks[order[k]])
    {
      if k < |before| {
        assert before[..k] == order[..k];
        assert LastLeak(dir, before, alive, k);
      }
    }
  }

  lemma StoppedConcat(dir: Dir, a: seq<Dir>, b: seq<Dir>, life: nat)
    ensures life >= |a| ==> Stopped(dir, a + b, life) == Stopped(Last(dir, a), b, life - |a|)
    ensures Last(dir, a + b) == Last(Last(dir, a), b)
  {
  }

  lemma StoppedPrefix(dir: Dir, a: seq<Dir>, b: seq<Dir>, life: nat)
    requires a <= b && life < |a|
    ensures Stopped(dir, a, life) == Stopped(dir, b, life)
  {
  }

  lemma {:induction false} SweepGrows(dir: Dir, order: seq<Name>, alive: nat -> bool, luck: Name -> Luck, i: nat)
    requires i <= |order|
    ensures SweepStates(dir, order[..i], alive, luck) <= SweepStates(dir, order, alive, luck)
  {
    if i < |order| {
      SweepGrows(dir, order[..|order| - 1], alive, luck, i);
      assert order[..|order| - 1][..i] == order[..i];
    } else {
      assert order[..i] == order;
    }
  }
}
