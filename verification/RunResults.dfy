/** What the client's loop may end with, told by the stream's own events: the id, the value,
    the files byte by byte, what is passed on and what is shown. */
module RunResults {
  import opened Options
  import opened RunClient

  /** What f gives for the elements it gives something for, in their order. */
  ghost function Chosen<T(!new), U(!new)>(f: T -> Option<U>, s: seq<T>): seq<U> {
    if s == [] then [] else
      Chosen(f, s[..|s| - 1]) + match f(s[|s| - 1]) case Some(x) => [x] case None => []
  }

  ghost function Joined(parts: seq<seq<nat>>): seq<nat> {
    if parts == [] then [] else Joined(parts[..|parts| - 1]) + parts[|parts| - 1]
  }

  ghost function Latest<T(!new)>(s: seq<T>): Option<T> {
    if s == [] then None else Some(s[|s| - 1])
  }

  ghost function AnId(): Event -> Option<string> { (e: Event) => if e.Created? then Some(e.id) else None }
  ghost function AValue(): Event -> Option<Option<string>> { (e: Event) => if e.ExecutionDone? then Some(e.value) else None }
  ghost function AChunk(name: string): Event -> Option<seq<nat>> {
    (e: Event) => if e.FileChunk? && e.name == name then Some(e.data) else None
  }
  ghost function PassedOn(): Event -> Option<Out> {
    (e: Event) => if e.Created? then Some(Started(e.id)) else if e.FileChunk? then Some(File(e.name, e.data)) else None
  }
  ghost function StartOrFile(): Out -> Option<Out> { (o: Out) => if o.Started? || o.File? then Some(o) else None }
  ghost function AnOutput(): Out -> Option<Chunk> { (o: Out) => if o.Output? then Some(o.chunk) else None }
  ghost function ACall(): Event -> Option<seq<Effect>> { (e: Event) => if e.RpcCall? then Some(e.effects) else None }
  ghost function AWrite(): Effect -> Option<Chunk> { (e: Effect) => if e.Write? then Some(e.chunk) else None }
  ghost function OfCall(k: nat): Line -> Option<Chunk> { (l: Line) => if l.call == k then Some(l.chunk) else None }

  // ------------------------------------------------------------- what is noted of the events

  lemma {:induction false} IdIs(events: seq<Event>)
    ensures IdOf(events) == Latest(Chosen(AnId(), events))
  {
    if events != [] { IdIs(events[..|events| - 1]); }
  }

  lemma {:induction false} ValueIs(events: seq<Event>)
    ensures ValueOf(events) == match Latest(Chosen(AValue(), events)) case Some(value) => value case None => None
  {
    if events != [] { ValueIs(events[..|events| - 1]); }
  }

  lemma JoinedMore(parts: seq<seq<nat>>, part: seq<nat>)
    ensures Joined(parts + [part]) == Joined(parts) + part
  {
    assert (parts + [part])[..|parts|] == parts;
  }

  lemma {:induction false} FileThere(events: seq<Event>, name: string)
    ensures name in FilesOf(events) <==> exists i :: 0 <= i < |events| && events[i].FileChunk? && events[i].name == name
  {
    if events != [] {
      var init := events[..|events| - 1];
      FileThere(init, name);
      if i :| 0 <= i < |init| && init[i].FileChunk? && init[i].name == name { assert events[i] == init[i]; }
      if i :| 0 <= i < |events| && events[i].FileChunk? && events[i].name == name && i < |init| { assert init[i] == events[i]; }
    }
  }

  /** A file is its chunks, one behind the other. */
  lemma {:induction false} FileIs(events: seq<Event>, name: string)
    ensures Joined(Chosen(AChunk(name), events)) == if name in FilesOf(events) then FilesOf(events)[name] else []
  {
    if events != [] {
      var init, last := events[..|events| - 1], events[|events| - 1];
      FileIs(init, name);
      if last.FileChunk? && last.name == name {
        JoinedMore(Chosen(AChunk(name), init), last.data);
      } else {
        assert Chosen(AChunk(name), events) == Chosen(AChunk(name), init);
      }
    }
  }

  lemma {:induction false} RelaysAre(events: seq<Event>)
    ensures Relays(events) == Chosen(PassedOn(), events)
  {
    if events != [] { RelaysAre(events[..|events| - 1]); }
  }

  lemma {:induction false} RelayedIs(out: seq<Out>)
    ensures Relayed(out) == Chosen(StartOrFile(), out)
  {
    if out != [] { RelayedIs(out[..|out| - 1]); }
  }

  lemma {:induction false} OutputsAre(out: seq<Out>)
    ensures Outputs(out) == Chosen(AnOutput(), out)
  {
    if out != [] { OutputsAre(out[..|out| - 1]); }
  }

  lemma {:induction false} WritesAre(effects: seq<Effect>)
    ensures Writes(effects) == Chosen(AWrite(), effects)
  {
    if effects != [] { WritesAre(effects[..|effects| - 1]); }
  }

  lemma {:induction false} FromIs(said: seq<Line>, k: nat)
    ensures From(said, k) == Chosen(OfCall(k), said)
  {
    if said != [] { FromIs(said[..|said| - 1], k); }
  }

  // ------------------------------------------------------------------------------ the calls

  /** Event i is call number k. */
  ghost predicate IsCall(events: seq<Event>, i: int, k: nat) {
    0 <= i < |events| && events[i].RpcCall? && k == |Chosen(ACall(), events[..i])|
  }

  lemma {:induction false} CallsAre(events: seq<Event>)
    ensures |Calls(events)| == |Chosen(ACall(), events)|
    ensures forall k :: 0 <= k < |Calls(events)| ==> Calls(events)[k] == [Tell] + Chosen(ACall(), events)[k]
  {
    if events != [] { CallsAre(events[..|events| - 1]); }
  }

  lemma {:induction false} CallIs(events: seq<Event>, i: int, k: nat)
    requires IsCall(events, i, k)
    ensures k < |Calls(events)| && Calls(events)[k] == [Tell] + events[i].effects
  {
    var init := events[..|events| - 1];
    if i < |init| {
      assert init[..i] == events[..i];
      CallIs(init, i, k);
    } else {
      CallsAre(init);
    }
  }

  lemma {:induction false} CallAt(events: seq<Event>, k: nat) returns (i: int)
    requires k < |Calls(events)|
    ensures IsCall(events, i, k)
  {
    var init := events[..|events| - 1];
    if k < |Calls(init)| {
      i := CallAt(init, k);
      assert init[..i] == events[..i];
    } else {
      i := |init|;
      CallsAre(init);
    }
  }

  /** A call received before an ending is among the settled ones. */
  lemma {:induction false} SettledBefore(events: seq<Event>, i: int, k: nat, j: int)
    requires IsCall(events, i, k) && i < j < |events| && (events[j].ExecutionDone? || events[j].ExecutionKilled?)
    ensures k < Settled(events)
  {
    var init := events[..|events| - 1];
    assert init[..i] == events[..i];
    if Flushing(events[|events| - 1]) {
      CallIs(init, i, k);
    } else {
      SettledBefore(init, i, k, j);
    }
  }

  /** A code asked for is one some call received has among its effects. */
  lemma AskedIff(events: seq<Event>, code: int)
    ensures Asked(Calls(events), code) <==> exists i :: 0 <= i < |events| && events[i].RpcCall? && Exit(code) in events[i].effects
  {
    if k :| 0 <= k < |Calls(events)| && Exit(code) in Calls(events)[k] {
      var i := CallAt(events, k);
      CallIs(events, i, k);
    }
    if i :| 0 <= i < |events| && events[i].RpcCall? && Exit(code) in events[i].effects {
      CallIs(events, i, |Chosen(ACall(), events[..i])|);
    }
  }

  lemma {:induction false} CleanIff(events: seq<Event>)
    ensures Clean(events) <==> forall i :: 0 <= i < |events| ==> !events[i].ExecutionKilled? && (events[i].ExecutionDone? ==> events[i].success)
  {
    if events != [] { CleanIff(events[..|events| - 1]); }
  }

  // ------------------------------------------------------------------------------ the result

  ghost predicate ByACall(events: seq<Event>, k: nat) {
    exists i :: IsCall(events, i, k)
  }

  /** Line p was written by call number said[p].call; of every call there are its first writes,
      in its order, and all of them if it was received before a word on how the run ended. */
  ghost predicate ShownBy(events: seq<Event>, shown: seq<Chunk>, said: seq<Line>) {
    && |said| == |shown| && (forall p :: 0 <= p < |said| ==> said[p].chunk == shown[p])
    && (forall p :: 0 <= p < |said| ==> ByACall(events, said[p].call))
    && forall i, k: nat :: IsCall(events, i, k) ==>
         && Chosen(OfCall(k), said) <= Chosen(AWrite(), events[i].effects)
         && (EndingAfter(events, i) ==> Chosen(OfCall(k), said) == Chosen(AWrite(), events[i].effects))
  }

  ghost predicate EndingAfter(events: seq<Event>, i: int) {
    exists j :: i < j < |events| && 0 <= j && (events[j].ExecutionDone? || events[j].ExecutionKilled?)
  }

  /** What is shown is what the calls wrote. */
  ghost predicate ShowsCalls(events: seq<Event>, shown: seq<Chunk>) {
    exists said: seq<Line> :: ShownBy(events, shown, said)
  }

  /** What is passed on and shown after these events, none of which but the last ends the run. */
  ghost predicate Relates(events: seq<Event>, out: seq<Out>) {
    && (forall i :: 0 <= i < |events| - 1 ==> !events[i].Complete? && !events[i].Disconnect?)
    && Chosen(StartOrFile(), out) == Chosen(PassedOn(), events)
    && ShowsCalls(events, Chosen(AnOutput(), out))
  }

  lemma TellIsNoWrite(effects: seq<Effect>)
    ensures Chosen(AWrite(), [Tell] + effects) == Chosen(AWrite(), effects)
    decreases |effects|
  {
    var all := [Tell] + effects;
    if effects == [] {
      assert all == [Tell] && all[..0] == [];
    } else {
      TellIsNoWrite(effects[..|effects| - 1]);
      assert all[..|all| - 1] == [Tell] + effects[..|effects| - 1];
    }
  }

  lemma LinesAre(said: seq<Line>, shown: seq<Chunk>, events: seq<Event>)
    requires Chunks(said) == shown && Tells(said, Calls(events), Settled(events))
    ensures |said| == |shown| && (forall p :: 0 <= p < |said| ==> said[p].chunk == shown[p])
    ensures forall p :: 0 <= p < |said| ==> ByACall(events, said[p].call)
  {
    forall p | 0 <= p < |said| ensures said[p].chunk == shown[p] && ByACall(events, said[p].call) {
      assert Chunks(said)[p] == said[p].chunk;
      var i := CallAt(events, said[p].call);
    }
  }

  lemma HeededShows(shown: seq<Chunk>, events: seq<Event>)
    requires Heeded(shown, events)
    ensures ShowsCalls(events, shown)
  {
    var said: seq<Line> :| Chunks(said) == shown && Tells(said, Calls(events), Settled(events));
    LinesAre(said, shown, events);
    forall i, k: nat | IsCall(events, i, k)
      ensures Chosen(OfCall(k), said) <= Chosen(AWrite(), events[i].effects)
      ensures EndingAfter(events, i) ==> Chosen(OfCall(k), said) == Chosen(AWrite(), events[i].effects)
    {
      OneCall(events, said, i, k);
      if j :| i < j < |events| && 0 <= j && (events[j].ExecutionDone? || events[j].ExecutionKilled?) { SettledBefore(events, i, k, j); }
    }
    assert ShownBy(events, shown, said);
  }

  lemma OneCall(events: seq<Event>, said: seq<Line>, i: int, k: nat)
    requires IsCall(events, i, k) && Tells(said, Calls(events), Settled(events))
    ensures Chosen(OfCall(k), said) <= Chosen(AWrite(), events[i].effects)
    ensures k < Settled(events) ==> Chosen(OfCall(k), said) == Chosen(AWrite(), events[i].effects)
  {
    CallIs(events, i, k);
    FromIs(said, k);
    WritesAre(Calls(events)[k]);
    TellIsNoWrite(events[i].effects);
  }

  lemma SaysRelates(stream: seq<Event>, n: nat, out: seq<Out>)
    requires SaysWell(stream, n, out)
    ensures Relates(stream[..n], out)
  {
    RelayedIs(out);
    RelaysAre(stream[..n]);
    OutputsAre(out);
    HeededShows(Outputs(out), stream[..n]);
    forall i | 0 <= i < n - 1 ensures !stream[..n][i].Complete? && !stream[..n][i].Disconnect? { assert !Last(stream[i]); }
  }

  /** What the result says of the events heeded: the last id and the last value they brought,
      and of every file exactly its chunks, one behind the other. */
  ghost predicate Reports(events: seq<Event>, r: Result) {
    && r.id == Latest(Chosen(AnId(), events))
    && r.value == (match Latest(Chosen(AValue(), events)) case Some(value) => value case None => None)
    && forall name ::
         && (name in r.files <==> exists i :: 0 <= i < |events| && events[i].FileChunk? && events[i].name == name)
         && (name in r.files ==> r.files[name] == Joined(Chosen(AChunk(name), events)))
  }

  lemma NotedReports(events: seq<Event>, r: Result)
    requires r.files == FilesOf(events) && r.value == ValueOf(events) && r.id == IdOf(events)
    ensures Reports(events, r)
  {
    IdIs(events);
    ValueIs(events);
    forall name
      ensures name in r.files <==> exists i :: 0 <= i < |events| && events[i].FileChunk? && events[i].name == name
      ensures name in r.files ==> r.files[name] == Joined(Chosen(AChunk(name), events))
    {
      FileThere(events, name);
      FileIs(events, name);
    }
  }

  /** However the loop ends, it has passed on starts and files as they came and shown what the
      calls wrote; and its one result, given last, reports the events up to the one that ended
      it, with exit code 2 unless that was a Complete. */
  lemma EndingMeans(stream: seq<Event>, out: seq<Out>, f: Finish)
    requires EndsWell(stream, out, f)
    ensures f.Closed? ==> (forall p :: 0 <= p < |out| ==> !out[p].Done?) && exists n :: 0 <= n <= |stream| && Relates(stream[..n], out)
    ensures f.Ended? ==>
              && 0 < |out| && out[|out| - 1] == Done(f.result) && (forall p :: 0 <= p < |out| - 1 ==> !out[p].Done?)
              && f.consumed <= |stream| && Relates(stream[..f.consumed], out) && Reports(stream[..f.consumed], f.result)
              && (f.result.ok <==> f.result.exitCode == 0)
              && (f.result.exitCode != 2 ==> f.consumed > 0 && stream[f.consumed - 1].Complete?)
              && (f.consumed == |stream| || (f.consumed > 0 && (stream[f.consumed - 1].Complete? || stream[f.consumed - 1].Disconnect?)))
  {
    match f
    case Closed =>
      var n :| 0 <= n <= |stream| && SaysWell(stream, n, out);
      SaysRelates(stream, n, out);
    case Ended(n, result) =>
      SaysRelates(stream, n, out);
      NotedReports(stream[..n], result);
      forall p | 0 <= p < |out| - 1 ensures !out[p].Done? { assert out[..|out| - 1][p] == out[p]; }
  }

  /** Exit code 0 after a Complete: no event said that the run failed or was killed, or some
      call received asked for 0. Any other code: some event did, or a call asked for it. */
  lemma ExitCodeMeans(events: seq<Event>, code: int)
    requires Judged(events, code)
    ensures code == 0 ==>
              || (forall i :: 0 <= i < |events| ==> !events[i].ExecutionKilled? && (events[i].ExecutionDone? ==> events[i].success))
              || exists i :: 0 <= i < |events| && events[i].RpcCall? && Exit(0) in events[i].effects
    ensures code != 0 ==>
              || (code == 1 && exists i :: 0 <= i < |events| && (events[i].ExecutionKilled? || (events[i].ExecutionDone? && !events[i].success)))
              || exists i :: 0 <= i < |events| && events[i].RpcCall? && Exit(code) in events[i].effects
  {
    var heard: seq<Option<int>> :| Hears(events, heard) && ExitCode(events, heard) == code;
    CleanIff(events);
    AskedIff(events, code);
    if code == 0 {
      SuccessMeans(events, heard);
    } else {
      FailureMeans(events, heard);
      OnlyOne(events, heard);
    }
  }

  /** A failure nobody asked another code for is a 1. */
  lemma {:induction false} OnlyOne(events: seq<Event>, heard: seq<Option<int>>)
    requires Hears(events, heard)
    ensures ExitCode(events, heard) in {0, 1} || Asked(Calls(events), ExitCode(events, heard))
  {
    if events != [] {
      var n := |events| - 1;
      OnlyOne(events[..n], heard[..n]);
      var code := ExitCode(events, heard);
      if Asked(Calls(events[..n]), code) { AskedMore(Calls(events[..n]), Due(events[n]), code); }
    }
  }
}
