/** The promises of the master over all its runs. */
module MasterTheorems {
  import opened Scheduler
  import opened Master
  import opened MasterRuns

  const START := State([], [], map[], map[], map[], multiset{})

  ghost predicate Possible(run: seq<Event>)
    decreases |run|, 0
  {
    run == [] || (Possible(run[..|run| - 1]) && Enabled(After(run[..|run| - 1]), run[|run| - 1]))
  }

  ghost function After(run: seq<Event>): State
    requires Possible(run)
    decreases |run|, 1
  {
    if run == [] then START else Next(After(run[..|run| - 1]), run[|run| - 1])
  }

  // ------------------------------------------------------- channels, over all runs

  lemma MovedOk(h: Handle, before: seq<Msg>, after: seq<Msg>)
    requires Moved(h, before, after) && ChannelOk(h, before)
    ensures ChannelOk(h, after)
  {
  }

  lemma FilesChannelOk(h: Handle, log: seq<Msg>)
    requires LiveLog(h, log)
    ensures ChannelOk(h, log + [Complete]) && (!h.profiled ==> Bare(log + [Complete]))
  {
    assert (log + [Complete])[..|log|] == log;
  }

  /** Ids and channels stay distinct and channels well-formed, step by step. */
  lemma StepInv(s: State, e: Event)
    requires Inv(s) && Enabled(s, e)
    ensures Inv(Next(s, e))
  {
    var t := Next(s, e);
    if e.FilesDone? {
      FilesDoneKeeps(s, e.id);
      forall h ensures ChannelOk(h, Log(t.logs, h)) {
        assert ChannelOk(h, Log(s.logs, h));
        if e.id in s.active && s.active[e.id].handle == h {
          FilesChannelOk(h, Log(s.logs, h));
        } else {
          assert Log(s.logs, h) + [] == Log(s.logs, h);
        }
      }
    } else {
      StepKeeps(s, e);
      forall h ensures ChannelOk(h, Log(t.logs, h)) {
        assert Moved(h, Log(s.logs, h), Log(t.logs, h)) && ChannelOk(h, Log(s.logs, h));
        MovedOk(h, Log(s.logs, h), Log(t.logs, h));
      }
    }
  }

  /** In every run. */
  lemma {:induction false} RunInv(run: seq<Event>)
    requires Possible(run)
    ensures Inv(After(run))
  {
    if run != [] {
      RunInv(run[..|run| - 1]);
      StepInv(After(run[..|run| - 1]), run[|run| - 1]);
    }
  }

  /** Nothing is ever sent on a channel after its Complete. */
  lemma NothingAfterComplete(s: State, e: Event, h: Handle)
    requires Inv(s) && Enabled(s, e) && Ended(Log(s.logs, h))
    ensures Log(Next(s, e).logs, h) == Log(s.logs, h)
  {
    EndedNotLive(h, Log(s.logs, h));
    if e.FilesDone? {
      FilesDoneKeeps(s, e.id);
    } else {
      StepKeeps(s, e);
      EndedStays(s.logs, Next(s, e).logs, h);
    }
  }

  /** A run leaves the active map only with a Complete; while it stays, it stays on its
      DOM. */
  lemma LeavesOnlyCompleted(s: State, e: Event, id: Id)
    requires Inv(s) && Enabled(s, e) && id in s.active
    ensures Stays(s.active[id], Next(s, e), id) || Ended(Log(Next(s, e).logs, s.active[id].handle))
  {
    if e.FilesDone? { FilesDoneKeeps(s, e.id); } else { StepKeeps(s, e); }
  }

  /** A queued run stays queued, becomes active, or its channel ends; only a lost DOM it
      was pinned to, or its own client leaving, drops it without a word. */
  lemma QueuedAccounted(s: State, e: Event, r: Request)
    requires Inv(s) && Enabled(s, e) && r in s.pending && !DroppedBy(e)(r)
    ensures Accounted(r, Next(s, e))
  {
    if e.FilesDone? { FilesDoneKeeps(s, e.id); } else { StepKeeps(s, e); }
  }

  /** A channel without profiling is honest when Complete comes only after a word on how
      the run ended. */
  predicate Honest(h: Handle, log: seq<Msg>) {
    !h.profiled && Complete in log ==> Proper(log)
  }

  ghost predicate SomeBare(s: State) {
    exists h: Handle :: !h.profiled && Bare(Log(s.logs, h))
  }

  /** The step that breaks it: files reported complete for a run that is not profiled and
      still active. */
  predicate FilesTooEarly(s: State, e: Event) {
    e.FilesDone? && e.id in s.active && !s.active[e.id].handle.profiled
  }

  lemma BareNotProper(log: seq<Msg>)
    ensures !(Bare(log) && Proper(log))
  {
    if |log| >= 2 { assert log[..|log| - 1][|log| - 2] == log[|log| - 2]; }
  }

  lemma BareStays(s: State, e: Event)
    requires Inv(s) && Enabled(s, e) && SomeBare(s)
    ensures SomeBare(Next(s, e))
  {
    var h: Handle :| !h.profiled && Bare(Log(s.logs, h));
    NothingAfterComplete(s, e, h);
    assert Bare(Log(Next(s, e).logs, h));
  }

  lemma BareMade(s: State, e: Event)
    requires Inv(s) && Enabled(s, e) && FilesTooEarly(s, e)
    ensures SomeBare(Next(s, e))
  {
    var h := s.active[e.id].handle;
    FilesDoneKeeps(s, e.id);
    FilesChannelOk(h, Log(s.logs, h));
    assert Bare(Log(Next(s, e).logs, h));
  }

  lemma BareOnlyThen(s: State, e: Event, h: Handle)
    requires Inv(s) && Enabled(s, e) && !FilesTooEarly(s, e) && !h.profiled && Bare(Log(Next(s, e).logs, h))
    ensures Bare(Log(s.logs, h))
  {
    var t := Next(s, e);
    if e.FilesDone? {
      FilesDoneKeeps(s, e.id);
      assert Log(s.logs, h) + [] == Log(s.logs, h);
    } else {
      StepKeeps(s, e);
      assert Moved(h, Log(s.logs, h), Log(t.logs, h));
      EndedNotLive(h, Log(t.logs, h));
      BareNotProper(Log(t.logs, h));
    }
  }

  lemma BareStep(s: State, e: Event)
    requires Inv(s) && Enabled(s, e)
    ensures SomeBare(Next(s, e)) <==> SomeBare(s) || FilesTooEarly(s, e)
  {
    if SomeBare(s) { BareStays(s, e); }
    if FilesTooEarly(s, e) { BareMade(s, e); }
    if SomeBare(Next(s, e)) && !FilesTooEarly(s, e) {
      var h: Handle :| !h.profiled && Bare(Log(Next(s, e).logs, h));
      BareOnlyThen(s, e, h);
    }
  }

  /** Some step of the run reported files too early. */
  ghost predicate FilesEverTooEarly(run: seq<Event>)
    requires Possible(run)
  {
    run != [] && (FilesEverTooEarly(run[..|run| - 1]) || FilesTooEarly(After(run[..|run| - 1]), run[|run| - 1]))
  }

  lemma {:induction false} RunBare(run: seq<Event>)
    requires Possible(run)
    ensures SomeBare(After(run)) <==> FilesEverTooEarly(run)
  {
    if run != [] {
      RunBare(run[..|run| - 1]);
      RunInv(run[..|run| - 1]);
      BareStep(After(run[..|run| - 1]), run[|run| - 1]);
    }
  }

  lemma HonestIffNotBare(h: Handle, log: seq<Msg>)
    requires ChannelOk(h, log) && !h.profiled
    ensures Honest(h, log) <==> !Bare(log)
  {
    BareNotProper(log);
    if Bare(log) { assert log[|log| - 1] in log; }
  }

  /** A vanished run is never taken for a completed one: in every run of the master, every
      unprofiled channel carries Complete only right after its ExecutionDone,
      ExecutionKilled or Disconnect, exactly when files are never reported complete for
      an active run that is not profiled. */
  lemma NeverVanishesIff(run: seq<Event>)
    requires Possible(run)
    ensures (forall h :: Honest(h, Log(After(run).logs, h))) <==> !FilesEverTooEarly(run)
  {
    RunInv(run);
    RunBare(run);
    forall h: Handle | !h.profiled ensures Honest(h, Log(After(run).logs, h)) <==> !Bare(Log(After(run).logs, h)) {
      assert ChannelOk(h, Log(After(run).logs, h));
      HonestIffNotBare(h, Log(After(run).logs, h));
    }
  }
}
