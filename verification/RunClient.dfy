/** The run client's message loop (`message_loop` in rodeo-client/src/run.rs): stream
    events, the tasks that serve the script's calls, and the captured output they produce,
    in any interleaving. */
module RunClient {
  import opened Options

  type Chunk = string

  /** One thing serving a call does: tell the consumer of the call, write to the script's
      standard output or error, or record `process.exit`. */
  datatype Effect = Tell | Write(chunk: Chunk) | Exit(code: int)

  datatype Event =
    | Created(id: string)
    | RpcCall(effects: seq<Effect>)
    | FileChunk(name: string, data: seq<nat>)
    | ExecutionDone(success: bool, value: Option<string>)
    | ExecutionKilled
    | Disconnect
    | Complete

  type Files = map<string, seq<nat>>

  datatype Result = Result(id: Option<string>, exitCode: int, ok: bool, files: Files, value: Option<string>)

  /** What the consumer sees. Notice is output the client itself adds. */
  datatype Out = Started(id: string) | Called | Output(chunk: Chunk) | File(name: string, data: seq<nat>) | Notice | Done(result: Result)

  // ---------------------------------------------------------------------- bookkeeping

  /** Serving the call an event brings: the consumer is told, then it is done. */
  function Due(e: Event): seq<seq<Effect>> {
    if e.RpcCall? then [[Tell] + e.effects] else []
  }

  /** The calls received, in order. */
  function Calls(events: seq<Event>): seq<seq<Effect>> {
    if events == [] then [] else Calls(events[..|events| - 1]) + Due(events[|events| - 1])
  }

  predicate Flushing(e: Event) {
    e.ExecutionDone? || e.ExecutionKilled?
  }

  /** How many calls were received before the last word on how the run ended. */
  function Settled(events: seq<Event>): nat {
    if events == [] then 0
    else if Flushing(events[|events| - 1]) then |Calls(events[..|events| - 1])|
    else Settled(events[..|events| - 1])
  }

  function Said(effect: Effect): seq<Chunk> {
    if effect.Write? then [effect.chunk] else []
  }

  function Writes(effects: seq<Effect>): seq<Chunk> {
    if effects == [] then [] else Writes(effects[..|effects| - 1]) + Said(effects[|effects| - 1])
  }

  function Shown(o: Out): seq<Chunk> {
    if o.Output? then [o.chunk] else []
  }

  function Outputs(out: seq<Out>): seq<Chunk> {
    if out == [] then [] else Outputs(out[..|out| - 1]) + Shown(out[|out| - 1])
  }

  function FilesOf(events: seq<Event>): Files {
    if events == [] then map[] else AddFile(FilesOf(events[..|events| - 1]), events[|events| - 1])
  }

  function AddFile(files: Files, e: Event): Files {
    if e.FileChunk? then files[e.name := (if e.name in files then files[e.name] else []) + e.data] else files
  }

  /** The value of the last ExecutionDone. */
  function ValueOf(events: seq<Event>): Option<string> {
    if events == [] then None
    else if events[|events| - 1].ExecutionDone? then events[|events| - 1].value
    else ValueOf(events[..|events| - 1])
  }

  function IdOf(events: seq<Event>): Option<string> {
    if events == [] then None
    else if events[|events| - 1].Created? then Some(events[|events| - 1].id)
    else IdOf(events[..|events| - 1])
  }

  /** What the loop passes on as it comes. */
  function Relay(e: Event): seq<Out> {
    match e
    case Created(id) => [Started(id)]
    case FileChunk(name, data) => [File(name, data)]
    case _ => []
  }

  function Relays(events: seq<Event>): seq<Out> {
    if events == [] then [] else Relays(events[..|events| - 1]) + Relay(events[|events| - 1])
  }

  /** The passed-on part of the output. */
  function Relayed(out: seq<Out>): seq<Out> {
    if out == [] then [] else
      Relayed(out[..|out| - 1]) + if out[|out| - 1].Started? || out[|out| - 1].File? then [out[|out| - 1]] else []
  }

  lemma RelaysNext(events: seq<Event>, e: Event)
    ensures Relays(events + [e]) == Relays(events) + Relay(e)
  {
    assert (events + [e])[..|events|] == events;
  }

  lemma RelayedSnoc(out: seq<Out>, o: Out)
    ensures Relayed(out + [o]) == Relayed(out) + if o.Started? || o.File? then [o] else []
  {
    assert (out + [o])[..|out|] == out;
  }

  predicate NoDone(out: seq<Out>) {
    forall i :: 0 <= i < |out| ==> !out[i].Done?
  }

  lemma NextEvent(events: seq<Event>, e: Event)
    ensures Calls(events + [e]) == Calls(events) + Due(e)
    ensures Settled(events + [e]) == if Flushing(e) then |Calls(events)| else Settled(events)
    ensures FilesOf(events + [e]) == AddFile(FilesOf(events), e)
    ensures ValueOf(events + [e]) == if e.ExecutionDone? then e.value else ValueOf(events)
    ensures IdOf(events + [e]) == if e.Created? then Some(e.id) else IdOf(events)
    ensures Clean(events + [e]) <==> Clean(events) && !Failing(e)
  {
    assert (events + [e])[..|events|] == events;
  }

  lemma OutputSnoc(out: seq<Out>, o: Out)
    ensures Outputs(out + [o]) == Outputs(out) + Shown(o) && (NoDone(out) && !o.Done? ==> NoDone(out + [o]))
  {
    assert (out + [o])[..|out|] == out;
  }

  lemma RelayQuiet(out: seq<Out>, e: Event)
    ensures Outputs(out + Relay(e)) == Outputs(out) && Relayed(out + Relay(e)) == Relayed(out) + Relay(e)
    ensures NoDone(out) ==> NoDone(out + Relay(e))
  {
    if Relay(e) == [] {
      assert out + [] == out;
    } else {
      OutputSnoc(out, Relay(e)[0]);
      RelayedSnoc(out, Relay(e)[0]);
    }
  }

  lemma WritesSnoc(effects: seq<Effect>, e: Effect)
    ensures Writes(effects + [e]) == Writes(effects) + Said(e)
  {
    assert (effects + [e])[..|effects|] == effects;
  }

  lemma {:induction false} WritesGrow(effects: seq<Effect>, m: nat)
    requires m <= |effects|
    ensures Writes(effects[..m]) <= Writes(effects)
  {
    if m < |effects| {
      WritesGrow(effects[..|effects| - 1], m);
      assert effects[..|effects| - 1][..m] == effects[..m];
    } else {
      assert effects[..m] == effects;
    }
  }

  // ------------------------------------------------------------------ who did what when

  /** One effect done, and for which call. */
  datatype Step = Step(call: nat, effect: Effect)

  /** What was done for call k, in order. */
  function Of(trace: seq<Step>, k: nat): seq<Effect> {
    if trace == [] then [] else
      Of(trace[..|trace| - 1], k) + if trace[|trace| - 1].call == k then [trace[|trace| - 1].effect] else []
  }

  /** A chunk and the call that wrote it. */
  datatype Line = Line(call: nat, chunk: Chunk)

  function Spoken(trace: seq<Step>): seq<Line> {
    if trace == [] then [] else
      Spoken(trace[..|trace| - 1]) + LineOf(trace[|trace| - 1])
  }

  function LineOf(s: Step): seq<Line> {
    if s.effect.Write? then [Line(s.call, s.effect.chunk)] else []
  }

  function Chunks(said: seq<Line>): (chunks: seq<Chunk>)
    ensures |chunks| == |said|
  {
    seq(|said|, i requires 0 <= i < |said| => said[i].chunk)
  }

  /** The chunks of call k, in order. */
  function From(said: seq<Line>, k: nat): seq<Chunk> {
    if said == [] then [] else
      From(said[..|said| - 1], k) + if said[|said| - 1].call == k then [said[|said| - 1].chunk] else []
  }

  lemma OfSnoc(trace: seq<Step>, s: Step, k: nat)
    ensures Of(trace + [s], k) == Of(trace, k) + if s.call == k then [s.effect] else []
  {
    assert (trace + [s])[..|trace|] == trace;
  }

  lemma FromSnoc(said: seq<Line>, l: Line, k: nat)
    ensures From(said + [l], k) == From(said, k) + if l.call == k then [l.chunk] else []
  {
    assert (said + [l])[..|said|] == said;
  }

  lemma SpokenSnoc(trace: seq<Step>, s: Step)
    ensures Spoken(trace + [s]) == Spoken(trace) + LineOf(s)
  {
    assert (trace + [s])[..|trace|] == trace;
  }

  /** A call says what it was served to say. */
  lemma {:induction false} SpokenFrom(trace: seq<Step>, k: nat)
    ensures From(Spoken(trace), k) == Writes(Of(trace, k))
  {
    if trace != [] {
      var init, s := trace[..|trace| - 1], trace[|trace| - 1];
      SpokenFrom(init, k);
      if s.effect.Write? {
        FromSnoc(Spoken(init), LineOf(s)[0], k);
      } else {
        assert Spoken(trace) == Spoken(init);
      }
      if s.call == k {
        WritesSnoc(Of(init, k), s.effect);
      } else {
        assert Of(trace, k) == Of(init, k);
      }
    }
  }

  lemma {:induction false} FromGrows(said: seq<Line>, m: nat, k: nat)
    requires m <= |said|
    ensures From(said[..m], k) <= From(said, k)
  {
    if m < |said| {
      FromGrows(said[..|said| - 1], m, k);
      assert said[..|said| - 1][..m] == said[..m];
    } else {
      assert said[..m] == said;
    }
  }

  predicate Below(trace: seq<Step>, n: nat) {
    forall p :: 0 <= p < |trace| ==> trace[p].call < n
  }

  predicate SaidBelow(said: seq<Line>, n: nat) {
    forall p :: 0 <= p < |said| ==> said[p].call < n
  }

  lemma {:induction false} SpokenBelow(trace: seq<Step>, n: nat)
    requires Below(trace, n)
    ensures SaidBelow(Spoken(trace), n)
  {
    if trace != [] { SpokenBelow(trace[..|trace| - 1], n); }
  }

  lemma {:induction false} OfNone(trace: seq<Step>, n: nat, k: nat)
    requires Below(trace, n) && n <= k
    ensures Of(trace, k) == []
  {
    if trace != [] { OfNone(trace[..|trace| - 1], n, k); }
  }

  lemma {:induction false} FromNone(said: seq<Line>, n: nat, k: nat)
    requires SaidBelow(said, n) && n <= k
    ensures From(said, k) == []
  {
    if said != [] { FromNone(said[..|said| - 1], n, k); }
  }

  // ------------------------------------------------------------------- serving the calls

  /** What is left of call k, the tasks being the last calls. */
  function Left(calls: nat, tasks: seq<seq<Effect>>, k: nat): seq<Effect>
    requires |tasks| <= calls && k < calls
  {
    if k < calls - |tasks| then [] else tasks[k - (calls - |tasks|)]
  }

  /** Every call is served in its own order, nothing skipped or made up. */
  ghost predicate Serving(calls: seq<seq<Effect>>, trace: seq<Step>, tasks: seq<seq<Effect>>) {
    && |tasks| <= |calls| && Below(trace, |calls|)
    && forall k: nat :: k < |calls| ==> Of(trace, k) + Left(|calls|, tasks, k) == calls[k]
  }

  lemma Shift<T>(a: seq<T>, b: seq<T>)
    requires b != []
    ensures (a + [b[0]]) + b[1..] == a + b
  {
  }

  lemma ServeStep(calls: seq<seq<Effect>>, trace: seq<Step>, tasks: seq<seq<Effect>>, i: nat)
    requires Serving(calls, trace, tasks) && i < |tasks| && tasks[i] != []
    ensures Serving(calls, trace + [Step(|calls| - |tasks| + i, tasks[i][0])], tasks[i := tasks[i][1..]])
    ensures tasks[i][0] in calls[|calls| - |tasks| + i]
  {
    var own := |calls| - |tasks| + i;
    var s, next := Step(own, tasks[i][0]), tasks[i := tasks[i][1..]];
    forall k: nat | k < |calls| ensures Of(trace + [s], k) + Left(|calls|, next, k) == calls[k] {
      ServeOne(calls, trace, tasks, i, k);
    }
    NextIn(Of(trace, own), tasks[i], calls[own]);
  }

  lemma ServeOne(calls: seq<seq<Effect>>, trace: seq<Step>, tasks: seq<seq<Effect>>, i: nat, k: nat)
    requires |tasks| <= |calls| && i < |tasks| && tasks[i] != [] && k < |calls|
    requires Of(trace, k) + Left(|calls|, tasks, k) == calls[k]
    ensures Of(trace + [Step(|calls| - |tasks| + i, tasks[i][0])], k) + Left(|calls|, tasks[i := tasks[i][1..]], k) == calls[k]
  {
    OfSnoc(trace, Step(|calls| - |tasks| + i, tasks[i][0]), k);
    if k == |calls| - |tasks| + i {
      Shift(Of(trace, k), tasks[i]);
    } else {
      assert Left(|calls|, tasks[i := tasks[i][1..]], k) == Left(|calls|, tasks, k);
      assert Of(trace, k) + [] == Of(trace, k);
    }
  }

  lemma NextIn(a: seq<Effect>, b: seq<Effect>, whole: seq<Effect>)
    requires a + b == whole && b != []
    ensures b[0] in whole
  {
    assert whole[|a|] == b[0];
  }

  lemma ServeSpawn(calls: seq<seq<Effect>>, trace: seq<Step>, tasks: seq<seq<Effect>>, due: seq<seq<Effect>>)
    requires Serving(calls, trace, tasks)
    ensures Serving(calls + due, trace, tasks + due)
  {
    forall k: nat | k < |calls + due| ensures Of(trace, k) + Left(|calls + due|, tasks + due, k) == (calls + due)[k] {
      if |calls| <= k { OfNone(trace, |calls|, k); }
    }
  }

  lemma ServeDone(calls: seq<seq<Effect>>, trace: seq<Step>, tasks: seq<seq<Effect>>)
    requires Serving(calls, trace, tasks) && AllDone(tasks)
    ensures Serving(calls, trace, [])
  {
    forall k: nat | k < |calls| ensures Of(trace, k) + Left(|calls|, [], k) == calls[k] {
      assert Of(trace, k) + Left(|calls|, tasks, k) == calls[k];
    }
  }

  function Total(tasks: seq<seq<Effect>>): nat {
    if tasks == [] then 0 else Total(tasks[..|tasks| - 1]) + |tasks[|tasks| - 1]|
  }

  lemma {:induction false} TotalStep(tasks: seq<seq<Effect>>, i: nat)
    requires i < |tasks| && tasks[i] != []
    ensures Total(tasks[i := tasks[i][1..]]) < Total(tasks)
  {
    var next := tasks[i := tasks[i][1..]];
    if i < |tasks| - 1 {
      TotalStep(tasks[..|tasks| - 1], i);
      assert next[..|next| - 1] == tasks[..|tasks| - 1][i := tasks[i][1..]];
    } else {
      assert next[..|next| - 1] == tasks[..|tasks| - 1];
    }
  }

  // --------------------------------------------------------------------- what is shown

  /** Each call's chunks are among its own, first things first; of the first full calls
      they are all there. */
  ghost predicate Tells(said: seq<Line>, calls: seq<seq<Effect>>, full: nat) {
    && full <= |calls| && SaidBelow(said, |calls|)
    && (forall k: nat :: k < |calls| ==> From(said, k) <= Writes(calls[k]))
    && (forall k: nat :: k < full ==> From(said, k) == Writes(calls[k]))
  }

  /** What is shown and captured is what the calls have said so far. */
  ghost predicate Talking(calls: seq<seq<Effect>>, full: nat, trace: seq<Step>, shown: seq<Chunk>, captured: seq<Chunk>) {
    && shown + captured == Chunks(Spoken(trace))
    && |shown| <= |Spoken(trace)| && Tells(Spoken(trace)[..|shown|], calls, full)
  }

  lemma TalkStep(calls: seq<seq<Effect>>, full: nat, trace: seq<Step>, shown: seq<Chunk>, captured: seq<Chunk>, s: Step)
    requires Talking(calls, full, trace, shown, captured)
    ensures Talking(calls, full, trace + [s], shown, captured + Said(s.effect))
  {
    var said := Spoken(trace);
    SpokenSnoc(trace, s);
    assert (said + LineOf(s))[..|shown|] == said[..|shown|];
    assert Chunks(said + LineOf(s)) == Chunks(said) + Said(s.effect);
    Assoc(shown, captured, Said(s.effect));
  }

  lemma Assoc<T>(a: seq<T>, b: seq<T>, c: seq<T>)
    ensures (a + b) + c == a + (b + c)
  {
  }

  /** What is shown of a call never goes beyond what it writes. */
  lemma ShownBelow(calls: seq<seq<Effect>>, trace: seq<Step>, tasks: seq<seq<Effect>>, m: nat, k: nat)
    requires Serving(calls, trace, tasks) && m <= |Spoken(trace)| && k < |calls|
    ensures From(Spoken(trace)[..m], k) <= From(Spoken(trace), k) <= Writes(calls[k])
  {
    FromGrows(Spoken(trace), m, k);
    SpokenFrom(trace, k);
    WritesGrow(calls[k], |Of(trace, k)|);
    assert calls[k] == Of(trace, k) + Left(|calls|, tasks, k);
    assert calls[k][..|Of(trace, k)|] == Of(trace, k);
  }

  lemma TalkForward(calls: seq<seq<Effect>>, full: nat, trace: seq<Step>, tasks: seq<seq<Effect>>, shown: seq<Chunk>, captured: seq<Chunk>)
    requires Talking(calls, full, trace, shown, captured) && Serving(calls, trace, tasks) && captured != []
    ensures Talking(calls, full, trace, shown + [captured[0]], captured[1..])
  {
    var said, m := Spoken(trace), |shown|;
    Shift(shown, captured);
    assert |said| == |shown + captured|;
    SpokenBelow(trace, |calls|);
    forall k: nat | k < |calls|
      ensures From(said[..m + 1], k) <= Writes(calls[k]) && (k < full ==> From(said[..m + 1], k) == Writes(calls[k]))
    {
      ShownBelow(calls, trace, tasks, m + 1, k);
      StillFull(said, m, k, Writes(calls[k]));
    }
  }

  /** More of what is never more than whole is still whole. */
  lemma StillFull(said: seq<Line>, m: nat, k: nat, whole: seq<Chunk>)
    requires m < |said| && From(said[..m + 1], k) <= whole
    ensures From(said[..m], k) == whole ==> From(said[..m + 1], k) == whole
  {
    FromGrows(said[..m + 1], m, k);
    assert said[..m + 1][..m] == said[..m];
  }

  lemma TalkSpawn(calls: seq<seq<Effect>>, full: nat, trace: seq<Step>, shown: seq<Chunk>, captured: seq<Chunk>, due: seq<seq<Effect>>)
    requires Talking(calls, full, trace, shown, captured)
    ensures Talking(calls + due, full, trace, shown, captured)
  {
    var said := Spoken(trace)[..|shown|];
    forall k: nat | k < |calls + due| ensures From(said, k) <= Writes((calls + due)[k]) {
      if |calls| <= k { FromNone(said, |calls|, k); }
    }
  }

  /** Served and forwarded to the end, everything written is out. */
  lemma TalkDone(calls: seq<seq<Effect>>, full: nat, trace: seq<Step>, shown: seq<Chunk>)
    requires Talking(calls, full, trace, shown, []) && Serving(calls, trace, [])
    ensures Talking(calls, |calls|, trace, shown, [])
  {
    var said := Spoken(trace);
    assert |shown| == |said| && said[..|shown|] == said;
    forall k: nat | k < |calls| ensures From(said, k) == Writes(calls[k]) {
      SpokenFrom(trace, k);
      assert Of(trace, k) + Left(|calls|, [], k) == calls[k] == Of(trace, k);
    }
  }

  /** The output is what the calls wrote, each call's chunks in its own order, and all of
      them for every call received before the last word on how the run ended. */
  ghost predicate Heeded(shown: seq<Chunk>, events: seq<Event>) {
    exists said :: Chunks(said) == shown && Tells(said, Calls(events), Settled(events))
  }

  // ------------------------------------------------------------------ how it turns out

  predicate Failing(e: Event) {
    e.ExecutionKilled? || (e.ExecutionDone? && !e.success)
  }

  /** No event so far says the run failed or was killed. */
  predicate Clean(events: seq<Event>) {
    events == [] || (Clean(events[..|events| - 1]) && !Failing(events[|events| - 1]))
  }

  /** Some call asks for this exit code. */
  predicate Asked(calls: seq<seq<Effect>>, code: int) {
    exists k :: 0 <= k < |calls| && Exit(code) in calls[k]
  }

  predicate NoExit(effects: seq<Effect>) {
    forall i :: 0 <= i < |effects| ==> !effects[i].Exit?
  }

  /** What may have been heard of `process.exit` when an ending is read: a code some call
      asked for; or nothing, if no call known to be served by then asked. */
  ghost predicate HeardBy(before: seq<Event>, heard: Option<int>) {
    match heard
    case Some(code) => Asked(Calls(before), code)
    case None => NobodyAsked(Calls(before), Settled(before))
  }

  ghost predicate NobodyAsked(calls: seq<seq<Effect>>, n: nat) {
    forall k :: 0 <= k < n && k < |calls| ==> NoExit(calls[k])
  }

  ghost predicate Hears(events: seq<Event>, heard: seq<Option<int>>) {
    && |heard| == |events|
    && (events == [] ||
        (Hears(events[..|events| - 1], heard[..|events| - 1])
         && (Flushing(events[|events| - 1]) ==> HeardBy(events[..|events| - 1], heard[|events| - 1]))))
  }

  /** The exit code after an ending: what was heard; else 1 for a failure; else as it was. */
  function Verdict(e: Event, heard: Option<int>, code: int): int {
    if heard.Some? then heard.value else if Failing(e) then 1 else code
  }

  function ExitCode(events: seq<Event>, heard: seq<Option<int>>): int
    requires |heard| == |events|
  {
    if events == [] then 0 else
      var n := |events| - 1;
      var before := ExitCode(events[..n], heard[..n]);
      if Flushing(events[n]) then Verdict(events[n], heard[n], before) else before
  }

  /** The events may come out at this exit code. */
  ghost predicate Judged(events: seq<Event>, code: int) {
    exists heard :: Hears(events, heard) && ExitCode(events, heard) == code
  }

  lemma JudgedNext(events: seq<Event>, code: int, e: Event, h: Option<int>)
    requires Judged(events, code) && (Flushing(e) ==> HeardBy(events, h))
    ensures Judged(events + [e], if Flushing(e) then Verdict(e, h, code) else code)
  {
    var heard: seq<Option<int>> :| Hears(events, heard) && ExitCode(events, heard) == code;
    assert (events + [e])[..|events|] == events && (heard + [h])[..|events|] == heard;
    assert Hears(events + [e], heard + [h]);
  }

  lemma AskedMore(calls: seq<seq<Effect>>, due: seq<seq<Effect>>, code: int)
    requires Asked(calls, code)
    ensures Asked(calls + due, code)
  {
    var k :| 0 <= k < |calls| && Exit(code) in calls[k];
    assert (calls + due)[k] == calls[k];
  }

  lemma {:induction false} CallsGrow(events: seq<Event>, n: nat)
    requires n <= |events|
    ensures Calls(events[..n]) <= Calls(events)
  {
    if n < |events| {
      CallsGrow(events[..|events| - 1], n);
      assert events[..|events| - 1][..n] == events[..n];
    } else {
      assert events[..n] == events;
    }
  }

  /** Success is what the plugin reported, or what the script asked for. */
  lemma {:induction false} SuccessMeans(events: seq<Event>, heard: seq<Option<int>>)
    requires Hears(events, heard) && ExitCode(events, heard) == 0
    ensures Clean(events) || Asked(Calls(events), 0)
  {
    if events != [] {
      var n := |events| - 1;
      if !Flushing(events[n]) || heard[n].None? {
        SuccessMeans(events[..n], heard[..n]);
        if Asked(Calls(events[..n]), 0) { AskedMore(Calls(events[..n]), Due(events[n]), 0); }
      } else {
        AskedMore(Calls(events[..n]), Due(events[n]), 0);
      }
    }
  }

  /** Failure too. */
  lemma {:induction false} FailureMeans(events: seq<Event>, heard: seq<Option<int>>)
    requires Hears(events, heard) && ExitCode(events, heard) != 0
    ensures !Clean(events) || Asked(Calls(events), ExitCode(events, heard))
  {
    var n := |events| - 1;
    var code := ExitCode(events, heard);
    if !Flushing(events[n]) || (heard[n].None? && !Failing(events[n])) {
      FailureMeans(events[..n], heard[..n]);
      if Asked(Calls(events[..n]), code) { AskedMore(Calls(events[..n]), Due(events[n]), code); }
    } else if heard[n].Some? {
      AskedMore(Calls(events[..n]), Due(events[n]), code);
    }
  }

  /** Without a word on how the run ended, the exit code stays 0. */
  lemma {:induction false} UnendedIsZero(events: seq<Event>, heard: seq<Option<int>>)
    requires |heard| == |events| && forall i :: 0 <= i < |events| ==> !Flushing(events[i])
    ensures ExitCode(events, heard) == 0
  {
    if events != [] { UnendedIsZero(events[..|events| - 1], heard[..|events| - 1]); }
  }

  /** No ending after the first n events: they decide. */
  lemma {:induction false} LastEnding(events: seq<Event>, heard: seq<Option<int>>, n: nat)
    requires Hears(events, heard) && n <= |events| && forall i :: n <= i < |events| ==> !Flushing(events[i])
    ensures Hears(events[..n], heard[..n]) && ExitCode(events, heard) == ExitCode(events[..n], heard[..n])
  {
    if n < |events| {
      var m := |events| - 1;
      LastEnding(events[..m], heard[..m], n);
      assert events[..m][..n] == events[..n] && heard[..m][..n] == heard[..n];
    } else {
      assert events[..n] == events && heard[..n] == heard;
    }
  }

  /** When the last ending is event t, an exit code asked for before decides if it was
      heard, and it must be heard if its call was received before an earlier ending;
      otherwise the ending itself decides. */
  lemma ExitDecides(events: seq<Event>, code: int, t: nat)
    requires Judged(events, code) && t < |events| && Flushing(events[t])
    requires forall i :: t < i < |events| ==> !Flushing(events[i])
    ensures Asked(Calls(events[..t]), code)
            || (NobodyAsked(Calls(events[..t]), Settled(events[..t]))
                && if Failing(events[t]) then code == 1 else Judged(events[..t], code))
  {
    var heard: seq<Option<int>> :| Hears(events, heard) && ExitCode(events, heard) == code;
    LastEnding(events, heard, t + 1);
    var upto, h := events[..t + 1], heard[..t + 1];
    assert upto[..t] == events[..t] && h[..t] == heard[..t];
    assert HeardBy(events[..t], heard[t]);
    assert ExitCode(upto, h) == Verdict(events[t], heard[t], ExitCode(events[..t], heard[..t]));
    if heard[t].None? { assert Judged(events[..t], ExitCode(events[..t], heard[..t])); }
  }

  // ------------------------------------------------------------------------- the loop

  /** The loop's variables. */
  datatype Loop = Loop(out: seq<Out>, captured: seq<Chunk>, tasks: seq<seq<Effect>>, rpcExit: int, exitRequested: bool,
    exitCode: int, ok: bool, value: Option<string>, files: Files, id: Option<string>)

  const START := Loop([], [], [], 0, false, 0, true, None, map[], None)

  /** What is noted of `process.exit`: some call's code, or nothing while none was served. */
  ghost predicate Hearing(calls: seq<seq<Effect>>, trace: seq<Step>, rpcExit: int, exitRequested: bool) {
    if exitRequested then Asked(calls, rpcExit)
    else rpcExit == 0 && forall k: nat :: k < |calls| ==> NoExit(Of(trace, k))
  }

  ghost predicate Noted(l: Loop, events: seq<Event>) {
    && l.files == FilesOf(events) && l.value == ValueOf(events) && l.id == IdOf(events)
    && Relayed(l.out) == Relays(events)
  }

  ghost predicate Busy(l: Loop, calls: seq<seq<Effect>>, full: nat, trace: seq<Step>) {
    && Serving(calls, trace, l.tasks) && full <= |calls| - |l.tasks|
    && Talking(calls, full, trace, Outputs(l.out), l.captured)
    && Hearing(calls, trace, l.rpcExit, l.exitRequested) && NoDone(l.out)
  }

  /** full calls have been served and forwarded to the end. */
  ghost predicate Valid(l: Loop, events: seq<Event>, full: nat, trace: seq<Step>) {
    Busy(l, Calls(events), full, trace) && Told(l, events)
  }

  ghost predicate Told(l: Loop, events: seq<Event>) {
    Judged(events, l.exitCode) && (l.ok <==> l.exitCode == 0) && Noted(l, events)
  }

  // ------------------------------------------------------------------- one step each

  function Mention(effect: Effect): seq<Out> {
    if effect.Tell? then [Called] else []
  }

  lemma MentionSays(out: seq<Out>, effect: Effect)
    ensures Outputs(out + Mention(effect)) == Outputs(out) && Relayed(out + Mention(effect)) == Relayed(out)
    ensures NoDone(out) ==> NoDone(out + Mention(effect))
  {
    if effect.Tell? {
      OutputSnoc(out, Called);
      RelayedSnoc(out, Called);
    } else {
      assert out + [] == out;
    }
  }

  /** One effect of task i done. */
  function Stepped(l: Loop, i: nat): Loop
    requires i < |l.tasks| && l.tasks[i] != []
  {
    var effect := l.tasks[i][0];
    l.(tasks := l.tasks[i := l.tasks[i][1..]], captured := l.captured + Said(effect), out := l.out + Mention(effect),
       rpcExit := if effect.Exit? then effect.code else l.rpcExit, exitRequested := l.exitRequested || effect.Exit?)
  }

  lemma HearStep(calls: seq<seq<Effect>>, trace: seq<Step>, rpcExit: int, exitRequested: bool, s: Step)
    requires Hearing(calls, trace, rpcExit, exitRequested) && s.call < |calls| && s.effect in calls[s.call]
    ensures s.effect.Exit? ==> Hearing(calls, trace + [s], s.effect.code, true)
    ensures !s.effect.Exit? ==> Hearing(calls, trace + [s], rpcExit, exitRequested)
  {
    if !exitRequested && !s.effect.Exit? {
      forall k: nat | k < |calls| ensures NoExit(Of(trace + [s], k)) { OfSnoc(trace, s, k); }
    }
  }

  lemma BusyStep(l: Loop, i: nat, calls: seq<seq<Effect>>, full: nat, trace: seq<Step>)
    requires i < |l.tasks| && l.tasks[i] != [] && Busy(l, calls, full, trace)
    ensures Busy(Stepped(l, i), calls, full, trace + [Step(|calls| - |l.tasks| + i, l.tasks[i][0])])
    ensures Outputs(Stepped(l, i).out) == Outputs(l.out) && Relayed(Stepped(l, i).out) == Relayed(l.out)
  {
    var s := Step(|calls| - |l.tasks| + i, l.tasks[i][0]);
    ServeStep(calls, trace, l.tasks, i);
    TalkStep(calls, full, trace, Outputs(l.out), l.captured, s);
    HearStep(calls, trace, l.rpcExit, l.exitRequested, s);
    MentionSays(l.out, s.effect);
    BusyParts(Stepped(l, i), calls, full, trace + [s]);
  }

  lemma BusyParts(l: Loop, calls: seq<seq<Effect>>, full: nat, trace: seq<Step>)
    requires Serving(calls, trace, l.tasks) && full <= |calls| - |l.tasks|
    requires Talking(calls, full, trace, Outputs(l.out), l.captured)
    requires Hearing(calls, trace, l.rpcExit, l.exitRequested) && NoDone(l.out)
    ensures Busy(l, calls, full, trace)
  {
  }

  method StepTask(l: Loop, i: nat, ghost events: seq<Event>, ghost full: nat, ghost trace: seq<Step>) returns (r: Loop, ghost more: seq<Step>)
    requires i < |l.tasks| && l.tasks[i] != [] && Valid(l, events, full, trace)
    ensures r == Stepped(l, i) && Valid(r, events, full, more)
    ensures Total(r.tasks) < Total(l.tasks) && Outputs(r.out) == Outputs(l.out)
  {
    BusyStep(l, i, Calls(events), full, trace);
    TotalStep(l.tasks, i);
    more := trace + [Step(|Calls(events)| - |l.tasks| + i, l.tasks[i][0])];
    r := DoStep(l, i);
  }

  method DoStep(l: Loop, i: nat) returns (r: Loop)
    requires i < |l.tasks| && l.tasks[i] != []
    ensures r == Stepped(l, i)
  {
    assert l.captured + [] == l.captured && l.out + [] == l.out;
    r := l.(tasks := l.tasks[i := l.tasks[i][1..]]);
    match l.tasks[i][0]
    case Tell => r := r.(out := r.out + [Called]);
    case Write(chunk) => r := r.(captured := r.captured + [chunk]);
    case Exit(code) => r := r.(rpcExit := code, exitRequested := true);
  }

  /** Every task awaited; the tasks not awaited yet run on meanwhile. */
  method AwaitTasks(l: Loop, ghost events: seq<Event>, ghost full: nat, ghost trace: seq<Step>) returns (r: Loop, ghost more: seq<Step>)
    requires Valid(l, events, full, trace)
    ensures Valid(r, events, full, more) && r.tasks == [] && Outputs(r.out) == Outputs(l.out)
    ensures r.exitCode == l.exitCode && r.ok == l.ok
  {
    r, more := l, trace;
    while !AllDone(r.tasks)
      invariant Valid(r, events, full, more) && Outputs(r.out) == Outputs(l.out)
      invariant r.exitCode == l.exitCode && r.ok == l.ok
      decreases Total(r.tasks)
    {
      var i :| 0 <= i < |r.tasks| && r.tasks[i] != [];
      r, more := StepTask(r, i, events, full, more);
    }
    DoneValid(r, events, full, more);
    r := r.(tasks := []);
  }

  predicate AllDone(tasks: seq<seq<Effect>>) {
    forall i :: 0 <= i < |tasks| ==> tasks[i] == []
  }

  lemma DoneValid(l: Loop, events: seq<Event>, full: nat, trace: seq<Step>)
    requires Valid(l, events, full, trace) && AllDone(l.tasks)
    ensures Valid(l.(tasks := []), events, full, trace)
  {
    ServeDone(Calls(events), trace, l.tasks);
  }

  lemma BusyForward(l: Loop, calls: seq<seq<Effect>>, full: nat, trace: seq<Step>)
    requires l.captured != [] && Busy(l, calls, full, trace)
    ensures Busy(l.(out := l.out + [Output(l.captured[0])], captured := l.captured[1..]), calls, full, trace)
  {
    TalkForward(calls, full, trace, l.tasks, Outputs(l.out), l.captured);
    OutputSnoc(l.out, Output(l.captured[0]));
  }

  method ForwardOne(l: Loop, ghost events: seq<Event>, ghost full: nat, ghost trace: seq<Step>) returns (r: Loop)
    requires l.captured != [] && Valid(l, events, full, trace)
    ensures r == l.(out := l.out + [Output(l.captured[0])], captured := l.captured[1..]) && Valid(r, events, full, trace)
  {
    BusyForward(l, Calls(events), full, trace);
    RelayedSnoc(l.out, Output(l.captured[0]));
    r := l.(out := l.out + [Output(l.captured[0])], captured := l.captured[1..]);
  }

  /** Everything captured forwarded. */
  method DrainCaptured(l: Loop, ghost events: seq<Event>, ghost full: nat, ghost trace: seq<Step>) returns (r: Loop)
    requires Valid(l, events, full, trace)
    ensures Valid(r, events, full, trace) && r.captured == [] && r.tasks == l.tasks
    ensures r.exitCode == l.exitCode && r.ok == l.ok
  {
    r := l;
    while r.captured != []
      invariant Valid(r, events, full, trace) && r.tasks == l.tasks
      invariant r.exitCode == l.exitCode && r.ok == l.ok
      decreases |r.captured|
    {
      r := ForwardOne(r, events, full, trace);
    }
  }

  // ------------------------------------------------------------------------ the events

  /** The outcome after ExecutionDone or ExecutionKilled, as far as calls have been served. */
  function OutcomeAfter(e: Event, l: Loop): (int, bool)
    requires Flushing(e)
  {
    if l.exitRequested then (l.rpcExit, l.rpcExit == 0)
    else if e.ExecutionKilled? then (1, false)
    else if l.rpcExit != 0 then (l.rpcExit, false)
    else if !e.success then (1, false)
    else (l.exitCode, l.ok)
  }

  function AfterEnding(l: Loop, e: Event): Loop
    requires Flushing(e)
  {
    var (code, fine) := OutcomeAfter(e, l);
    l.(exitCode := code, ok := fine, value := if e.ExecutionDone? then e.value else l.value)
  }

  method ReadOutcome(l: Loop, e: Event) returns (r: Loop)
    requires Flushing(e)
    ensures r == AfterEnding(l, e)
  {
    r := l;
    if e.ExecutionDone? {
      if !e.success { r := r.(exitCode := 1, ok := false); }
      if l.exitRequested {
        r := r.(exitCode := l.rpcExit, ok := l.rpcExit == 0);
      } else if l.rpcExit != 0 {
        r := r.(exitCode := l.rpcExit, ok := false);
      }
      r := r.(value := e.value);
    } else if l.exitRequested {
      r := r.(exitCode := l.rpcExit, ok := l.rpcExit == 0);
    } else {
      r := r.(exitCode := 1, ok := false);
    }
  }

  /** What is noted so far is what may have been heard. */
  lemma HeardSoFar(l: Loop, events: seq<Event>, trace: seq<Step>)
    requires Busy(l, Calls(events), Settled(events), trace)
    ensures HeardBy(events, if l.exitRequested then Some(l.rpcExit) else None)
  {
    var calls := Calls(events);
    if !l.exitRequested {
      forall k: nat | k < Settled(events) && k < |calls| ensures NoExit(calls[k]) {
        assert Of(trace, k) + Left(|calls|, l.tasks, k) == calls[k] == Of(trace, k);
      }
    }
  }

  lemma OutcomeValid(l: Loop, e: Event, events: seq<Event>, trace: seq<Step>)
    requires Flushing(e) && Valid(l, events, Settled(events), trace)
    ensures Valid(AfterEnding(l, e), events + [e], Settled(events), trace)
  {
    NextEvent(events, e);
    RelaysNext(events, e);
    HeardSoFar(l, events, trace);
    JudgedNext(events, l.exitCode, e, if l.exitRequested then Some(l.rpcExit) else None);
    assert Calls(events) + [] == Calls(events);
  }

  /** ExecutionDone or ExecutionKilled: the outcome is read first, then every call served
      to its end, and what it wrote forwarded. */
  method HandleTerminal(l: Loop, e: Event, ghost events: seq<Event>, ghost trace: seq<Step>) returns (r: Loop, ghost more: seq<Step>)
    requires Flushing(e) && Valid(l, events, Settled(events), trace)
    ensures Valid(r, events + [e], Settled(events + [e]), more) && r.tasks == [] && r.captured == []
    ensures (r.exitCode, r.ok) == OutcomeAfter(e, l)
  {
    OutcomeValid(l, e, events, trace);
    NextEvent(events, e);
    assert Calls(events) + [] == Calls(events);
    r := ReadOutcome(l, e);
    r, more := AwaitTasks(r, events + [e], Settled(events), trace);
    r := DrainCaptured(r, events + [e], Settled(events), more);
    TalkDone(Calls(events + [e]), Settled(events), more, Outputs(r.out));
  }

  predicate Quiet(e: Event) {
    e.Created? || e.RpcCall? || e.FileChunk?
  }

  function AfterQuiet(l: Loop, e: Event): Loop {
    l.(id := if e.Created? then Some(e.id) else l.id, files := AddFile(l.files, e), tasks := l.tasks + Due(e),
       out := l.out + Relay(e))
  }

  lemma BusyQuiet(l: Loop, e: Event, calls: seq<seq<Effect>>, full: nat, trace: seq<Step>)
    requires Quiet(e) && Busy(l, calls, full, trace)
    ensures Busy(AfterQuiet(l, e), calls + Due(e), full, trace)
  {
    ServeSpawn(calls, trace, l.tasks, Due(e));
    TalkSpawn(calls, full, trace, Outputs(l.out), l.captured, Due(e));
    RelayQuiet(l.out, e);
    if l.exitRequested {
      AskedMore(calls, Due(e), l.rpcExit);
    } else {
      forall k: nat | |calls| <= k < |calls + Due(e)| ensures NoExit(Of(trace, k)) { OfNone(trace, |calls|, k); }
    }
  }

  lemma QuietValid(l: Loop, e: Event, events: seq<Event>, full: nat, trace: seq<Step>)
    requires Quiet(e) && Valid(l, events, full, trace)
    ensures Valid(AfterQuiet(l, e), events + [e], full, trace)
  {
    NextEvent(events, e);
    RelaysNext(events, e);
    RelayQuiet(l.out, e);
    BusyQuiet(l, e, Calls(events), full, trace);
    JudgedNext(events, l.exitCode, e, None);
  }

  /** The events that end nothing. */
  method HandleQuiet(l: Loop, e: Event, ghost events: seq<Event>, ghost full: nat, ghost trace: seq<Step>) returns (r: Loop)
    requires Quiet(e) && Valid(l, events, full, trace)
    ensures r == AfterQuiet(l, e) && Valid(r, events + [e], full, trace)
  {
    QuietValid(l, e, events, full, trace);
    match e
    case Created(name) =>
      r := l.(id := Some(name), out := l.out + [Started(name)]);
      assert l.tasks + [] == l.tasks;
    case RpcCall(effects) =>
      r := l.(tasks := l.tasks + [[Tell] + effects]);
      assert l.out + [] == l.out;
    case FileChunk(name, data) =>
      var buffer := (if name in l.files then l.files[name] else []) + data;
      r := l.(files := l.files[name := buffer], out := l.out + [File(name, data)]);
      assert l.tasks + [] == l.tasks;
  }

  // --------------------------------------------------------------------- how it may end

  /** What the loop has done once it is over. */
  datatype Finish = Closed | Ended(consumed: nat, result: Result)

  predicate Last(e: Event) {
    e.Complete? || e.Disconnect?
  }

  predicate DoneLast(out: seq<Out>, result: Result) {
    out != [] && out[|out| - 1] == Done(result) && NoDone(out[..|out| - 1])
  }

  /** How the loop may end on a stream: with one Done, after everything else it says. */
  ghost predicate EndsWell(stream: seq<Event>, out: seq<Out>, f: Finish) {
    match f
    case Closed => NoDone(out) && exists n :: 0 <= n <= |stream| && SaysWell(stream, n, out)
    case Ended(n, result) =>
      && DoneLast(out, result) && SaysWell(stream, n, out)
      && result.files == FilesOf(stream[..n]) && result.value == ValueOf(stream[..n]) && result.id == IdOf(stream[..n])
      && (result.ok <==> result.exitCode == 0)
      && if n > 0 && stream[n - 1].Complete? then Judged(stream[..n], result.exitCode)
         else result.exitCode == 2 && (n == |stream| || (n > 0 && stream[n - 1].Disconnect?))
  }

  /** What has been said once n events are taken, none but the last of them ending it. */
  ghost predicate SaysWell(stream: seq<Event>, n: nat, out: seq<Out>) {
    && n <= |stream| && (forall i :: 0 <= i < n - 1 ==> !Last(stream[i]))
    && Heeded(Outputs(out), stream[..n]) && Relayed(out) == Relays(stream[..n])
  }

  /** Where the loop stands after n events. */
  ghost predicate Standing(stream: seq<Event>, n: nat, l: Loop, trace: seq<Step>) {
    && n <= |stream| && Valid(l, stream[..n], Settled(stream[..n]), trace)
    && forall i :: 0 <= i < n ==> !Last(stream[i])
  }

  lemma Take(stream: seq<Event>, n: nat)
    requires n < |stream|
    ensures stream[..n + 1] == stream[..n] + [stream[n]]
  {
  }

  lemma StandingSays(stream: seq<Event>, n: nat, l: Loop, trace: seq<Step>, out: seq<Out>)
    requires Standing(stream, n, l, trace) && Outputs(out) == Outputs(l.out) && Relayed(out) == Relayed(l.out)
    ensures SaysWell(stream, n, out)
  {
    var said := Spoken(trace)[..|Outputs(out)|];
    assert Chunks(said) == (Outputs(l.out) + l.captured)[..|Outputs(out)|];
  }

  /** The event that ends it says nothing itself. */
  lemma LastSays(stream: seq<Event>, n: nat, out: seq<Out>)
    requires SaysWell(stream, n, out) && n < |stream| && Last(stream[n]) && forall i :: 0 <= i < n ==> !Last(stream[i])
    ensures SaysWell(stream, n + 1, out)
  {
    Take(stream, n);
    NextEvent(stream[..n], stream[n]);
    RelaysNext(stream[..n], stream[n]);
    assert Calls(stream[..n]) + [] == Calls(stream[..n]);
  }

  /** The loop's result, with an outcome. */
  function ResultOf(l: Loop, exitCode: int, ok: bool): Result {
    Result(l.id, exitCode, ok, l.files, l.value)
  }

  lemma FinishSays(out: seq<Out>, result: Result)
    requires NoDone(out)
    ensures DoneLast(out + [Done(result)], result)
    ensures Outputs(out + [Done(result)]) == Outputs(out) && Relayed(out + [Done(result)]) == Relayed(out)
  {
    OutputSnoc(out, Done(result));
    RelayedSnoc(out, Done(result));
    assert (out + [Done(result)])[..|out|] == out;
  }

  /** The event that ends it changes nothing that is noted. */
  lemma LastNotes(stream: seq<Event>, n: nat, l: Loop)
    requires n < |stream| && Last(stream[n]) && Told(l, stream[..n])
    ensures Told(l, stream[..n + 1])
  {
    Take(stream, n);
    NextEvent(stream[..n], stream[n]);
    RelaysNext(stream[..n], stream[n]);
    JudgedNext(stream[..n], l.exitCode, stream[n], None);
  }

  function DoneOut(l: Loop): seq<Out> {
    l.out + [Done(ResultOf(l, l.exitCode, l.ok))]
  }

  /** Complete ends the loop with the outcome noted. */
  lemma CompleteEnds(stream: seq<Event>, n: nat, l: Loop, trace: seq<Step>)
    requires Standing(stream, n, l, trace) && n < |stream| && stream[n].Complete?
    ensures EndsWell(stream, DoneOut(l), Ended(n + 1, ResultOf(l, l.exitCode, l.ok)))
  {
    FinishSays(l.out, ResultOf(l, l.exitCode, l.ok));
    StandingSays(stream, n, l, trace, DoneOut(l));
    LastSays(stream, n, DoneOut(l));
    LastNotes(stream, n, l);
  }

  /** What is shown when the stream is lost. */
  function LostOut(l: Loop): seq<Out> {
    l.out + [Notice] + [Done(ResultOf(l, 2, false))]
  }

  lemma LostSays(l: Loop)
    requires NoDone(l.out)
    ensures DoneLast(LostOut(l), ResultOf(l, 2, false))
    ensures Outputs(LostOut(l)) == Outputs(l.out) && Relayed(LostOut(l)) == Relayed(l.out)
  {
    OutputSnoc(l.out, Notice);
    RelayedSnoc(l.out, Notice);
    FinishSays(l.out + [Notice], ResultOf(l, 2, false));
  }

  /** A Disconnect ends the loop with exit code 2. */
  lemma DisconnectEnds(stream: seq<Event>, n: nat, l: Loop, trace: seq<Step>)
    requires Standing(stream, n, l, trace) && n < |stream| && stream[n].Disconnect?
    ensures EndsWell(stream, LostOut(l), Ended(n + 1, ResultOf(l, 2, false)))
  {
    LostSays(l);
    StandingSays(stream, n, l, trace, LostOut(l));
    LastSays(stream, n, LostOut(l));
    LastNotes(stream, n, l);
  }

  /** So does the end of the stream. */
  lemma LossEnds(stream: seq<Event>, l: Loop, trace: seq<Step>)
    requires Standing(stream, |stream|, l, trace)
    ensures EndsWell(stream, LostOut(l), Ended(|stream|, ResultOf(l, 2, false)))
  {
    LostSays(l);
    StandingSays(stream, |stream|, l, trace, LostOut(l));
  }

  predicate SameOutcome(l: Loop, r: Loop) {
    r.rpcExit == l.rpcExit && r.exitRequested == l.exitRequested && r.exitCode == l.exitCode && r.ok == l.ok
  }

  /** The next event, when it does not end the loop. */
  method TakeEvent(stream: seq<Event>, n: nat, l: Loop, ghost trace: seq<Step>) returns (r: Loop, ghost more: seq<Step>)
    requires Standing(stream, n, l, trace) && n < |stream| && !Last(stream[n])
    ensures Standing(stream, n + 1, r, more)
    ensures if Flushing(stream[n]) then (r.exitCode, r.ok) == OutcomeAfter(stream[n], l)
            else SameOutcome(l, r)
  {
    Take(stream, n);
    if stream[n].ExecutionDone? || stream[n].ExecutionKilled? {
      r, more := HandleTerminal(l, stream[n], stream[..n], trace);
    } else {
      NextEvent(stream[..n], stream[n]);
      r := HandleQuiet(l, stream[n], stream[..n], Settled(stream[..n]), trace);
      more := trace;
    }
  }

  lemma StartStands(stream: seq<Event>)
    ensures Standing(stream, 0, START, [])
  {
    assert Hears([], []) && ExitCode([], []) == 0;
  }

  /** `message_loop` over the events of a stream that then ends: the next event is taken,
      a task goes on, captured output is forwarded, or the consumer has gone, whichever
      comes first. */
  method MessageLoop(stream: seq<Event>) returns (out: seq<Out>, f: Finish)
    ensures EndsWell(stream, out, f)
  {
    var l := START;
    var n: nat := 0;
    ghost var trace: seq<Step> := [];
    StartStands(stream);
    while true
      invariant Standing(stream, n, l, trace)
      decreases |stream| - n, Total(l.tasks), |l.captured|
    {
      if {
        case n == |stream| =>
          LossEnds(stream, l, trace);
          return LostOut(l), Ended(n, ResultOf(l, 2, false));
        case n < |stream| && stream[n].Disconnect? =>
          DisconnectEnds(stream, n, l, trace);
          return LostOut(l), Ended(n + 1, ResultOf(l, 2, false));
        case n < |stream| && stream[n].Complete? =>
          CompleteEnds(stream, n, l, trace);
          return DoneOut(l), Ended(n + 1, ResultOf(l, l.exitCode, l.ok));
        case n < |stream| && !stream[n].Complete? && !stream[n].Disconnect? =>
          l, trace := TakeEvent(stream, n, l, trace);
          n := n + 1;
        case exists i :: 0 <= i < |l.tasks| && l.tasks[i] != [] =>
          var i :| 0 <= i < |l.tasks| && l.tasks[i] != [];
          l, trace := StepTask(l, i, stream[..n], Settled(stream[..n]), trace);
        case l.captured != [] =>
          l := ForwardOne(l, stream[..n], Settled(stream[..n]), trace);
        case true =>
          StandingSays(stream, n, l, trace, l.out);
          return l.out, Closed;
      }
    }
  }

  // ---------------------------------------------------------------------------- a race

  /** Nothing but quiet events before event m, which ends the run, and then Complete. */
  ghost predicate EndsAt(stream: seq<Event>, m: nat) {
    && m + 2 <= |stream| && Flushing(stream[m]) && stream[m + 1].Complete?
    && forall i :: 0 <= i < m ==> Quiet(stream[i])
  }

  /** The quiet events taken one right after the other, no call served meanwhile. */
  method Receive(stream: seq<Event>, m: nat) returns (l: Loop, ghost trace: seq<Step>)
    requires m <= |stream| && forall i :: 0 <= i < m ==> Quiet(stream[i])
    ensures Standing(stream, m, l, trace) && SameOutcome(START, l)
  {
    l, trace := START, [];
    StartStands(stream);
    for n := 0 to m
      invariant Standing(stream, n, l, trace) && SameOutcome(START, l)
    {
      l, trace := TakeEvent(stream, n, l, trace);
    }
  }

  /** Once every call is served, every exit request has been heard. */
  lemma AllHeard(l: Loop, calls: seq<seq<Effect>>, full: nat, trace: seq<Step>)
    requires Busy(l, calls, full, trace) && l.tasks == []
    ensures if l.exitRequested then Asked(calls, l.rpcExit) else NobodyAsked(calls, |calls|)
  {
    if !l.exitRequested {
      forall k: nat | k < |calls| ensures NoExit(calls[k]) {
        assert Of(trace, k) + Left(|calls|, [], k) == calls[k] == Of(trace, k);
      }
    }
  }

  /** An ending and a Complete right after it: the outcome read is the result. */
  method TakeEnding(stream: seq<Event>, n: nat, l: Loop, ghost trace: seq<Step>) returns (out: seq<Out>, f: Finish)
    requires Standing(stream, n, l, trace) && n + 2 <= |stream| && Flushing(stream[n]) && stream[n + 1].Complete?
    ensures EndsWell(stream, out, f) && f.Ended? && f.result.exitCode == OutcomeAfter(stream[n], l).0
  {
    var r;
    ghost var more;
    r, more := TakeEvent(stream, n, l, trace);
    CompleteEnds(stream, n + 1, r, more);
    return DoneOut(r), Ended(n + 2, ResultOf(r, r.exitCode, r.ok));
  }

  /** An exit request races the ending: the loop's own steps, in two orders. If the calls
      are served before the ending is read, a code they asked for is the result; if they
      are only awaited after it, the ending decides, whatever they ask. */
  method RacingExit(stream: seq<Event>, m: nat, early: bool) returns (out: seq<Out>, f: Finish)
    requires EndsAt(stream, m)
    ensures EndsWell(stream, out, f) && f.Ended?
    ensures early && !NobodyAsked(Calls(stream[..m]), |Calls(stream[..m])|) ==> Asked(Calls(stream[..m]), f.result.exitCode)
    ensures !early ==> f.result.exitCode == if Failing(stream[m]) then 1 else 0
  {
    var l;
    ghost var trace;
    l, trace := Receive(stream, m);
    if early {
      l, trace := AwaitTasks(l, stream[..m], Settled(stream[..m]), trace);
      AllHeard(l, Calls(stream[..m]), Settled(stream[..m]), trace);
    }
    out, f := TakeEnding(stream, m, l, trace);
  }
}
