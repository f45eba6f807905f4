/** Where everything the master sends comes from, over all its runs: every message on a
    client's channel, and every script, answer and kill. */
module MasterHistory {
  import opened Options
  import opened Scheduler
  import opened Routing
  import opened Master
  import opened MasterRuns
  import opened MasterTheorems
  import opened MasterQueue
  import opened MasterSteps
  import opened MasterEffects
  import opened MasterMessages
  import opened MasterOutbox
  import opened MasterBroadcasts

  // --------------------------------------------------------------------- steps of a run

  lemma {:induction false} PrefixPossible(run: seq<Event>, k: nat)
    requires Possible(run) && k <= |run|
    ensures Possible(run[..k])
  {
    if k < |run| {
      PrefixPossible(run[..|run| - 1], k);
      assert run[..|run| - 1][..k] == run[..k];
    } else {
      assert run[..k] == run;
    }
  }

  lemma LastStep(run: seq<Event>, before: seq<Event>, e: Event)
    requires Possible(run) && run != [] && before == run[..|run| - 1] && e == run[|run| - 1]
    ensures Possible(before) && Enabled(After(before), e) && After(run) == Next(After(before), e)
  {
  }

  lemma StepOf(run: seq<Event>, k: nat)
    requires Possible(run) && k < |run|
    ensures Possible(run[..k]) && Possible(run[..k + 1]) && Enabled(After(run[..k]), run[k])
    ensures After(run[..k + 1]) == Next(After(run[..k]), run[k])
  {
    PrefixPossible(run, k + 1);
    assert run[..k + 1][..k] == run[..k];
    LastStep(run[..k + 1], run[..k], run[k]);
  }

  /** Every step of a run is one of the steps the laws are about. */
  lemma EveryStep(run: seq<Event>, k: nat)
    requires Possible(run) && k < |run|
    ensures Possible(run[..k]) && Possible(run[..k + 1])
    ensures Inv(After(run[..k])) && Settled(After(run[..k])) && Enabled(After(run[..k]), run[k])
    ensures After(run[..k + 1]) == Next(After(run[..k]), run[k])
  {
    StepOf(run, k);
    RunInv(run[..k]);
    StaysSettled(run[..k]);
  }

  ghost predicate ActiveOn(s: State, id: Id, h: Handle) {
    id in s.active && s.active[id].handle == h
  }

  // ------------------------------------------------------------------ a client's channel

  /** This step, in state s and to state t, puts the message on the channel. */
  ghost predicate Puts(s: State, e: Event, t: State, h: Handle, msg: Msg) {
    match msg
    case Rpc(_) => exists id :: ActiveOn(s, id, h) && e == Output(id, msg)
    case File(_) => exists id :: ActiveOn(s, id, h) && e == Output(id, msg)
    case ExecutionDone(success) => exists id :: ActiveOn(s, id, h) && e == Done(id, success)
    case ExecutionKilled =>
      || (exists id :: ActiveOn(s, id, h) && e == KilledBy(id))
      || exists r: Request :: r.handle == h && Drained(s, e, t.backends, r)
    case Disconnect =>
      exists id :: ActiveOn(s, id, h) && ((e.DomLost? && s.active[id].domId == e.dom)
                                          || (e.BackendLost? && !ListedBeside(s.backends, e.backend, s.active[id].domId)))
    case Complete =>
      || (exists id :: ActiveOn(s, id, h) && (e == FilesDone(id) || (!h.profiled && Verdict(s, e, id).Some?)))
      || exists r: Request :: r.handle == h && Drained(s, e, t.backends, r)
  }

  lemma HeardPuts(s: State, e: Event, t: State, id: Id, msg: Msg)
    requires Enabled(s, e) && id in s.active && msg in Heard(s, e, id)
    ensures Puts(s, e, t, s.active[id].handle, msg)
  {
    assert ActiveOn(s, id, s.active[id].handle);
  }

  lemma ActivePuts(s: State, e: Event, id: Id, msg: Msg)
    requires Inv(s) && Settled(s) && Enabled(s, e) && id in s.active
    requires var h := s.active[id].handle; msg in Log(Next(s, e).logs, h) && msg !in Log(s.logs, h)
    ensures Puts(s, e, Next(s, e), s.active[id].handle, msg)
  {
    StepHears(s, e, id);
    assert msg in Heard(s, e, id);
    HeardPuts(s, e, Next(s, e), id, msg);
  }

  lemma IdlePuts(s: State, e: Event, h: Handle, msg: Msg)
    requires Inv(s) && Settled(s) && Enabled(s, e) && forall id :: id in s.active ==> s.active[id].handle != h
    requires msg in Log(Next(s, e).logs, h) && msg !in Log(s.logs, h)
    ensures Puts(s, e, Next(s, e), h, msg)
  {
    StepOverhears(s, e, h);
    assert msg in [ExecutionKilled, Complete];
  }

  lemma StepPuts(s: State, e: Event, h: Handle, msg: Msg)
    requires Inv(s) && Settled(s) && Enabled(s, e) && msg in Log(Next(s, e).logs, h) && msg !in Log(s.logs, h)
    ensures Puts(s, e, Next(s, e), h, msg)
  {
    if id :| ActiveOn(s, id, h) {
      ActivePuts(s, e, id, msg);
    } else {
      forall id | id in s.active ensures s.active[id].handle != h { assert !ActiveOn(s, id, h); }
      IdlePuts(s, e, h, msg);
    }
  }

  /** Step k of the run puts the message on the channel. */
  ghost predicate PutAt(run: seq<Event>, k: int, h: Handle, msg: Msg) {
    && 0 <= k < |run| && Possible(run[..k]) && Possible(run[..k + 1])
    && Puts(After(run[..k]), run[k], After(run[..k + 1]), h, msg)
  }

  lemma PutAtShorter(run: seq<Event>, n: nat, k: nat, h: Handle, msg: Msg)
    requires k < n <= |run| && PutAt(run[..n], k, h, msg)
    ensures PutAt(run, k, h, msg)
  {
    assert run[..n][..k] == run[..k] && run[..n][..k + 1] == run[..k + 1];
  }

  lemma LastPuts(run: seq<Event>, h: Handle, msg: Msg)
    requires Possible(run) && run != [] && msg in Log(After(run).logs, h)
    requires Possible(run[..|run| - 1]) && msg !in Log(After(run[..|run| - 1]).logs, h)
    ensures PutAt(run, |run| - 1, h, msg)
  {
    var n := |run| - 1;
    EveryStep(run, n);
    assert run[..n + 1] == run;
    StepPuts(After(run[..n]), run[n], h, msg);
  }

  /** Whether the message is on the channel after so many steps. */
  ghost function There(run: seq<Event>, h: Handle, msg: Msg): nat -> bool {
    (n: nat) => n <= |run| && Possible(run[..n]) && msg in Log(After(run[..n]).logs, h)
  }

  lemma {:induction false} TurnsTrue(there: nat -> bool, n: nat) returns (k: nat)
    requires !there(0) && there(n)
    ensures k < n && !there(k) && there(k + 1)
  {
    if there(n - 1) { k := TurnsTrue(there, n - 1); } else { k := n - 1; }
  }

  lemma NothingAtFirst(run: seq<Event>, h: Handle, msg: Msg)
    ensures !There(run, h, msg)(0)
  {
    assert run[..0] == [];
  }

  lemma TurnPuts(run: seq<Event>, h: Handle, msg: Msg, k: nat)
    requires Possible(run) && k < |run| && !There(run, h, msg)(k) && There(run, h, msg)(k + 1)
    ensures PutAt(run, k, h, msg)
  {
    var upto := run[..k + 1];
    PrefixPossible(run, k);
    assert upto[..k] == run[..k];
    LastPuts(upto, h, msg);
    PutAtShorter(run, k + 1, k, h, msg);
  }

  /** Nothing is on a channel that no step put there: output as it came while the run was
      active, the plugin's own word that it is done or killed, the loss of its DOM or its
      backend, or the end of its session while it was queued. */
  lemma ChannelOrigin(run: seq<Event>, h: Handle, msg: Msg) returns (k: nat)
    requires Possible(run) && msg in Log(After(run).logs, h)
    ensures PutAt(run, k, h, msg)
  {
    NothingAtFirst(run, h, msg);
    assert run[..|run|] == run;
    k := TurnsTrue(There(run, h, msg), |run|);
    TurnPuts(run, h, msg, k);
  }

  /** How a run ended, as its client hears it, is what the plugin reported, at some step, for
      the run then active on the channel. */
  lemma DoneIsReported(run: seq<Event>, h: Handle, success: bool) returns (k: nat, id: Id)
    requires Possible(run) && ExecutionDone(success) in Log(After(run).logs, h)
    ensures k < |run| && run[k] == Done(id, success) && Possible(run[..k])
    ensures id in After(run[..k]).active && After(run[..k]).active[id].handle == h
  {
    k := ChannelOrigin(run, h, ExecutionDone(success));
    id :| ActiveOn(After(run[..k]), id, h) && run[k] == Done(id, success);
  }

  // ----------------------------------------------------------- scripts, kills and answers

  /** Step k makes run id active on the DOM, whose first backend is b. */
  ghost predicate StartsAt(run: seq<Event>, k: int, b: Id, dom: Id, id: Id) {
    && 0 <= k < |run| && Possible(run[..k]) && Possible(run[..k + 1])
    && id !in After(run[..k]).active
    && id in After(run[..k + 1]).active && After(run[..k + 1]).active[id].domId == dom
    && FirstListing(After(run[..k + 1]).backends, dom, b)
  }

  ghost function Starts(run: seq<Event>, b: Id, dom: Id, id: Id): set<int> {
    set k | 0 <= k < |run| && StartsAt(run, k, b, dom, id)
  }

  lemma OneMore(a: set<int>, b: set<int>, n: int, last: bool)
    requires n !in a && forall k :: k in b <==> k in a || (k == n && last)
    ensures |b| == |a| + if last then 1 else 0
  {
    var c := if last then a + {n} else a;
    forall k ensures k in b <==> k in c { }
    assert b == c;
  }

  lemma StartsMore(run: seq<Event>, b: Id, dom: Id, id: Id)
    requires run != []
    ensures var n := |run| - 1;
            |Starts(run, b, dom, id)| == |Starts(run[..n], b, dom, id)| + if StartsAt(run, n, b, dom, id) then 1 else 0
  {
    var n := |run| - 1;
    forall k ensures k in Starts(run, b, dom, id) <==> k in Starts(run[..n], b, dom, id) || (k == n && StartsAt(run, n, b, dom, id)) {
      if 0 <= k < n { StartsAtShorter(run, n, k, b, dom, id); }
    }
    OneMore(Starts(run[..n], b, dom, id), Starts(run, b, dom, id), n, StartsAt(run, n, b, dom, id));
  }

  lemma StartsAtShorter(run: seq<Event>, n: nat, k: nat, b: Id, dom: Id, id: Id)
    requires k < n <= |run|
    ensures StartsAt(run[..n], k, b, dom, id) <==> StartsAt(run, k, b, dom, id)
  {
    assert run[..n][..k] == run[..k] && run[..n][..k + 1] == run[..k + 1];
  }

  /** Over every run, a run's script is sent to a DOM exactly as often as the run has become
      active there, each time through the first backend that lists the DOM. */
  lemma {:induction false} ScriptsFollowStarts(run: seq<Event>, b: Id, dom: Id, id: Id)
    requires Possible(run)
    ensures After(run).sent[ToDom(b, dom, RunScript(id))] == |Starts(run, b, dom, id)|
  {
    if run == [] {
      assert Starts(run, b, dom, id) == {};
    } else {
      var n := |run| - 1;
      ScriptsFollowStarts(run[..n], b, dom, id);
      EveryStep(run, n);
      assert run[..n + 1] == run;
      StepSends(After(run[..n]), run[n], ToDom(b, dom, RunScript(id)));
      StartsMore(run, b, dom, id);
    }
  }

  /** The message alone is added, if some backend lists the DOM. */
  ghost predicate SentOnly(s: State, t: State, backends: seq<Backend>, dom: Id, what: ToPlugin) {
    if Listed(backends, dom) then exists b :: FirstListing(backends, dom, b) && t.sent == s.sent + multiset{ToDom(b, dom, what)}
    else t.sent == s.sent
  }

  lemma OneSent(s: State, t: State, backends: seq<Backend>, dom: Id, what: ToPlugin)
    requires forall out :: t.sent[out] == s.sent[out] +
               if out.ToDom? && out.dom == dom && out.what == what && FirstListing(backends, dom, out.backend) then 1 else 0
    ensures SentOnly(s, t, backends, dom, what)
  {
    if Listed(backends, dom) {
      OwnerIff(backends, dom, dom);
      var b := Owner(backends, dom).value;
      OwnerIff(backends, dom, b);
      forall out ensures t.sent[out] == (s.sent + multiset{ToDom(b, dom, what)})[out] {
        if out.ToDom? { OwnerIff(backends, dom, out.backend); }
      }
      assert t.sent == s.sent + multiset{ToDom(b, dom, what)};
    } else {
      forall out ensures t.sent[out] == s.sent[out] {
        if out.ToDom? { OwnerIff(backends, dom, out.backend); }
      }
      assert t.sent == s.sent;
    }
  }

  /** When the client of an active run leaves, its DOM is sent the kill of that run, once, and
      nothing else goes out; when the run is not active, nothing does. */
  lemma LeavingKills(run: seq<Event>, id: Id)
    requires Possible(run)
    ensures var s, t := After(run), Next(After(run), ClientLeft(id));
            if id in s.active then SentOnly(s, t, s.backends, s.active[id].domId, KillScript(id)) else t.sent == s.sent
  {
    var s, e := After(run), ClientLeft(id);
    RunInv(run);
    StaysSettled(run);
    if id in s.active {
      forall out ensures Next(s, e).sent[out] == s.sent[out] +
        if out.ToDom? && out.dom == s.active[id].domId && out.what == KillScript(id) && FirstListing(s.backends, s.active[id].domId, out.backend) then 1 else 0
      {
        OnlyTold(s, e, out);
      }
      OneSent(s, Next(s, e), s.backends, s.active[id].domId, KillScript(id));
    }
  }

  /** What the client of an active run answers, or its kill, reaches the run's DOM as it is,
      once, and nothing else goes out; when the run is not active, nothing does. */
  lemma AnswersReach(run: seq<Event>, id: Id, what: ToPlugin)
    requires Possible(run) && Enabled(After(run), ClientSays(id, what))
    ensures var s, t := After(run), Next(After(run), ClientSays(id, what));
            if id in s.active then SentOnly(s, t, s.backends, s.active[id].domId, what) else t.sent == s.sent
  {
    var s, e := After(run), ClientSays(id, what);
    RunInv(run);
    StaysSettled(run);
    if id in s.active {
      forall out ensures Next(s, e).sent[out] == s.sent[out] +
        if out.ToDom? && out.dom == s.active[id].domId && out.what == what && FirstListing(s.backends, s.active[id].domId, out.backend) then 1 else 0
      {
        OnlyTold(s, e, out);
      }
      OneSent(s, Next(s, e), s.backends, s.active[id].domId, what);
    }
  }

  lemma ToldDue(s: State, e: Event, t: State, out: Out)
    requires Enabled(s, e) && (e.ClientLeft? || e.ClientSays?) && e.id in s.active && t.active == s.active && !IsTarget(out)
    ensures var what := if e.ClientLeft? then KillScript(e.id) else e.what;
            Due(s, e, t, out) ==
              if out.ToDom? && out.dom == s.active[e.id].domId && out.what == what && FirstListing(s.backends, s.active[e.id].domId, out.backend) then 1 else 0
  {
    assert forall id :: id in s.active ==> Verdict(s, e, id).None?;
  }

  lemma OnlyTold(s: State, e: Event, out: Out)
    requires Inv(s) && Settled(s) && Enabled(s, e) && (e.ClientLeft? || e.ClientSays?) && e.id in s.active
    ensures var what := if e.ClientLeft? then KillScript(e.id) else e.what;
            Next(s, e).sent[out] == s.sent[out] +
              if out.ToDom? && out.dom == s.active[e.id].domId && out.what == what && FirstListing(s.backends, s.active[e.id].domId, out.backend) then 1 else 0
  {
    if out.ToDom? && out.what.Target? {
      StepTells(s, e, out.backend, out.dom, out.what.mode);
    } else {
      StepSends(s, e, out);
      ToldDue(s, e, Next(s, e), out);
    }
  }

  /** A submitted run that has a DOM to go to is active there at once, and its script, once,
      is all that goes out. */
  lemma SubmitStarts(run: seq<Event>, r: Request)
    requires Possible(run) && Enabled(After(run), Submit(r)) && CanGo(After(run).backends, r)
    ensures var s, t := After(run), Next(After(run), Submit(r));
            && r.id in t.active && Started(t, r.id, r) && Listed(s.backends, t.active[r.id].domId)
            && SentOnly(s, t, s.backends, t.active[r.id].domId, RunScript(r.id))
  {
    var s, t := After(run), Next(After(run), Submit(r));
    RunInv(run);
    StaysSettled(run);
    MatchedGo(s.backends, r);
    MatchedHasOwner(s.backends, r);
    OwnerIff(s.backends, MatchOf(s.backends, r).value, r.id);
    forall out ensures t.sent[out] == s.sent[out] +
      if out.ToDom? && out.dom == t.active[r.id].domId && out.what == RunScript(r.id) && FirstListing(s.backends, t.active[r.id].domId, out.backend) then 1 else 0
    {
      OnlyScript(s, r, out);
    }
    OneSent(s, t, s.backends, t.active[r.id].domId, RunScript(r.id));
  }

  lemma OnlyScript(s: State, r: Request, out: Out)
    requires Inv(s) && Settled(s) && Enabled(s, Submit(r)) && CanGo(s.backends, r)
    ensures r.id in Next(s, Submit(r)).active
    ensures var t := Next(s, Submit(r));
            t.sent[out] == s.sent[out] +
              if out.ToDom? && out.dom == t.active[r.id].domId && out.what == RunScript(r.id) && FirstListing(s.backends, t.active[r.id].domId, out.backend) then 1 else 0
  {
    MatchedGo(s.backends, r);
    if out.ToDom? && out.what.Target? {
      StepTells(s, Submit(r), out.backend, out.dom, out.what.mode);
    } else {
      StepSends(s, Submit(r), out);
    }
  }
}
