/** Runs of the master in which the exceptions happen. */
module MasterWitnesses {
  import opened Options
  import opened Route
  import opened Scheduler
  import opened Targets
  import opened Master
  import opened MasterRuns
  import opened MasterTheorems
  import opened MasterQueue
  import opened MasterTargets
  import opened TargetOrder

  const EMPTY := Backend("b", [])
  const EDIT := Dom("d", true, Some("s"), None, Some("edit"), Some("edit"), 0)
  const ANY := Request("r", Handle(0, false), Spec(None, None, None), None, None, 0)
  const PLAY := Request("p", Handle(1, false), Spec(Some(RunMode), None, None), Some("s"), None, 0)

  /** A backend registers and shows one edit DOM. */
  function Opening(): seq<Event> {
    [Register([EMPTY]), SnapshotTaken("b", [EDIT])]
  }

  lemma Extend(run: seq<Event>, e: Event)
    requires Possible(run) && Enabled(After(run), e)
    ensures Possible(run + [e]) && After(run + [e]) == Next(After(run), e)
  {
    assert (run + [e])[..|run|] == run;
  }

  lemma FirstStep()
    ensures Possible([Register([EMPTY])]) && After([Register([EMPTY])]) == START.(backends := [EMPTY])
  {
    assert multiset([EMPTY]) == multiset(START.backends) + multiset{Backend("b", [])};
    Extend([], Register([EMPTY]));
    assert [] + [Register([EMPTY])] == [Register([EMPTY])];
  }

  lemma EmptyQueue(s: State)
    requires s.pending == []
    ensures var t := Reconcile(s); t.backends == s.backends && t.pending == [] && t.active == s.active && t.logs == s.logs
  {
    ReconcileFacts(s);
  }

  lemma Shown(s: State)
    requires s.backends == [EMPTY] && s.pending == [] && s.active == map[] && s.logs == map[]
    ensures Idle(Snapshot(s, "b", [EDIT]))
  {
    SnapshotShown();
    EmptyQueue(s.(backends := WithSnapshot(s.backends, "b", [EDIT])));
  }

  lemma FirstSnapshot(s: State)
    requires s == START.(backends := [EMPTY])
    ensures Enabled(s, SnapshotTaken("b", [EDIT])) && Idle(Next(s, SnapshotTaken("b", [EDIT])))
  {
    Shown(s);
  }

  lemma SnapshotShown()
    ensures WithSnapshot([EMPTY], "b", [EDIT]) == [Backend("b", [EDIT])]
  {
  }

  lemma Opened()
    ensures Possible(Opening()) && Idle(After(Opening()))
  {
    var run := [Register([EMPTY])];
    FirstStep();
    FirstSnapshot(After(run));
    Extend(run, SnapshotTaken("b", [EDIT]));
    assert run + [SnapshotTaken("b", [EDIT])] == Opening();
  }

  lemma OneDom()
    ensures AllDoms([Backend("b", [EDIT])]) == [EDIT]
  {
    assert [Backend("b", [EDIT])][..0] == [];
    assert AllDoms([]) + [EDIT] == [EDIT];
  }

  /** One backend with one edit DOM, and no run yet. */
  ghost predicate Idle(s: State) {
    s.backends == [Backend("b", [EDIT])] && s.pending == [] && s.active == map[] && s.logs == map[]
  }

  lemma AnyMatches(s: State)
    requires Idle(s)
    ensures MatchOf(s.backends, ANY).Some?
  {
    OneDom();
    MatchIff(s.backends, ANY);
    assert EDIT in AllDoms(s.backends) && Candidate(ANY, EDIT);
  }

  lemma AnySubmitted(s: State)
    requires Idle(s)
    ensures Enabled(s, Submit(ANY))
    ensures ANY.id in Next(s, Submit(ANY)).active && !Next(s, Submit(ANY)).active[ANY.id].handle.profiled
  {
    AnyMatches(s);
  }

  /** Output files are reported complete for a plain run that is still executing: its
      client gets Complete and nothing else. */
  lemma FilesCanComeTooEarly()
    ensures exists run :: Possible(run) && FilesEverTooEarly(run)
  {
    Opened();
    AnySubmitted(After(Opening()));
    Extend(Opening(), Submit(ANY));
    Late(Opening() + [Submit(ANY)], FilesDone(ANY.id));
  }

  lemma Late(run: seq<Event>, e: Event)
    requires Possible(run) && Enabled(After(run), e) && FilesTooEarly(After(run), e)
    ensures exists late :: Possible(late) && FilesEverTooEarly(late)
  {
    Extend(run, e);
    assert (run + [e])[..|run|] == run;
    assert FilesEverTooEarly(run + [e]);
  }

  lemma PlayWaits(s: State)
    requires Idle(s)
    ensures MatchOf(s.backends, PLAY).None? && !Dead(s.backends, PLAY)
  {
    OneDom();
    MatchIff(s.backends, PLAY);
    assert EDIT in AllDoms(s.backends);
    assert KindName(ServerDom) == "server" && "server"[0] != "edit"[0];
  }

  lemma PlaySettled(s: State)
    requires Idle(s)
    ensures Settled(s.(pending := [PLAY]))
  {
    PlayWaits(s);
  }

  lemma PlayReconciled(s: State)
    requires Settled(s) && s.active == map[]
    ensures Reconcile(s).backends == s.backends && Reconcile(s).active == map[]
  {
    ReconcileFacts(s);
    NothingMatched(s);
  }

  lemma PlayQueuedUp(s: State)
    requires Idle(s)
    ensures RouteOrQueue(s, PLAY).backends == s.backends && RouteOrQueue(s, PLAY).active == map[]
  {
    PlayWaits(s);
    assert s.pending + [PLAY] == [PLAY];
    PlaySettled(s);
    PlayReconciled(s.(pending := [PLAY]));
  }

  lemma PlaySubmitted(s: State)
    requires Idle(s)
    ensures Enabled(s, Submit(PLAY))
    ensures var t := Next(s, Submit(PLAY)); t.backends == s.backends && t.active == map[]
  {
    PlayQueuedUp(s);
  }

  lemma NothingMatched(s: State)
    requires Settled(s)
    ensures DispatchFrom(s, s.pending, 0).active == s.active
  {
    NothingToProcess(s);
    DispatchFromKeeps(s, s.pending, 0);
  }

  lemma BackendGoes(s: State)
    requires s.backends == [Backend("b", [EDIT])] && PLAY in s.pending && s.active == map[]
    ensures Enabled(s, BackendLost("b", []))
    ensures var t := Next(s, BackendLost("b", [])); PLAY in t.pending && Dead(t.backends, PLAY)
  {
    assert WithoutBackend([Backend("b", [EDIT])], "b") == [];
  }

  /** The run waits alone for its studio's run mode. */
  ghost predicate Waiting(s: State) {
    s.backends == [Backend("b", [EDIT])] && s.pending == [PLAY] && s.active == map[] && Current(s)
  }

  lemma PlayQueued() returns (run: seq<Event>)
    ensures Possible(run) && Waiting(After(run))
  {
    Opened();
    PlaySubmitted(After(Opening()));
    PlayAlone(After(Opening()));
    Extend(Opening(), Submit(PLAY));
    run := Opening() + [Submit(PLAY)];
  }

  /** A run waits for its studio's run mode; then the studio's backend goes, and the run
      is left in the queue. */
  lemma DeadSessionsCanWait()
    ensures exists run, r :: Possible(run) && r in After(run).pending && Dead(After(run).backends, r)
  {
    var run := PlayQueued();
    BackendGoes(After(run));
    Extend(run, BackendLost("b", []));
    var last := run + [BackendLost("b", [])];
    assert PLAY in After(last).pending && Dead(After(last).backends, PLAY);
  }

  lemma PlayAlone(s: State)
    requires Idle(s)
    ensures var t := Next(s, Submit(PLAY)); t.pending == [PLAY] && Current(t)
  {
    PlayWaits(s);
    assert s.pending + [PLAY] == [PLAY];
    ReconcileFacts(s.(pending := [PLAY]));
    ReconcileCurrent(s.(pending := [PLAY]));
    KeptAlone(Matched(s.backends), PLAY);
    KeptAlone(DeadIn(s.backends), PLAY);
  }

  lemma KeptAlone(drop: Request -> bool, run: Request)
    requires !drop(run)
    ensures Keep(drop, [run]) == [run]
  {
    assert [run][1..] == [] && Keep(drop, []) == [];
  }

  /** The studio is told to run. */
  lemma PlayDrives(s: State)
    requires s.backends == [Backend("b", [EDIT])] && s.pending == [PLAY] && Current(s)
    ensures "s" in s.targets && s.targets["s"].0 == "run"
  {
    OneDom();
    assert EDIT.connected && Carries(EDIT, "s") && GroupOf(EDIT) == "s" && [EDIT][0] == EDIT;
    assert GroupFor([EDIT], 1, "s") == Some("s");
    assert Drives(PLAY) && ModeOf(PLAY) == "run";
    SoleRun(PLAY, [EDIT], "s");
  }

  /** Nothing is queued or active, and the studio is recorded as told to run. */
  ghost predicate Driven(s: State) {
    s.pending == [] && s.active == map[] && "s" in s.targets && s.targets["s"].0 == "run"
  }

  /** A run asks its studio to run; then its client leaves, and the studio stays driven. */
  lemma StudioStaysDriven()
    ensures exists run :: Possible(run) && Driven(After(run))
  {
    var run := PlayQueued();
    PlayDrives(After(run));
    PlayLeaves(After(run));
    Extend(run, ClientLeft("p"));
    assert Driven(After(run + [ClientLeft("p")]));
  }

  lemma PlayLeaves(s: State)
    requires s.pending == [PLAY] && s.active == map[]
    ensures var t := Next(s, ClientLeft("p")); t.pending == [] && t.active == map[] && t.targets == s.targets
  {
    assert [PLAY][1..] == [] && Keep(Named("p"), []) == [];
  }
}
