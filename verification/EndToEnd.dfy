/** The master's channels composed with the client's loop: what a run client may conclude
    from a Done. */
module EndToEnd {
  import S = Scheduler
  import M = Master
  import R = MasterRuns
  import T = MasterTheorems
  import H = MasterHistory
  import opened RunClient

  /** How a message for the client arrives as a stream event; calls and files carry what
      the master only passes on. */
  type Wire = S.Msg -> Event

  ghost predicate Faithful(wire: Wire) {
    forall m ::
      && (wire(m).RpcCall? <==> m.Rpc?) && (wire(m).FileChunk? <==> m.File?)
      && (wire(m).ExecutionDone? <==> m.ExecutionDone?) && (m.ExecutionDone? ==> wire(m).success == m.success)
      && (wire(m).ExecutionKilled? <==> m.ExecutionKilled?)
      && (wire(m).Disconnect? <==> m.Disconnect?) && (wire(m).Complete? <==> m.Complete?)
  }

  /** What the client has seen of a channel: Created, then its first messages in order. */
  function Stream(id: string, wire: Wire, log: seq<S.Msg>): (stream: seq<Event>)
    ensures |stream| == |log| + 1 && stream[0] == Created(id) && forall i :: 0 <= i < |log| ==> stream[i + 1] == wire(log[i])
  {
    [Created(id)] + seq(|log|, i requires 0 <= i < |log| => wire(log[i]))
  }

  lemma {:induction false} CleanMeans(events: seq<Event>, i: nat)
    requires Clean(events) && i < |events|
    ensures !Failing(events[i])
  {
    if i < |events| - 1 { CleanMeans(events[..|events| - 1], i); }
  }

  /** Success is real: when a client of an unprofiled run ends with exit code 0, after
      whatever run of the master, on whatever part of its channel it has seen, and in
      whatever interleaving of its own tasks, then at some step the plugin itself reported
      success, for the run then active on this channel, or the script asked to exit with 0. */
  lemma SuccessIsReal(run: seq<M.Event>, h: S.Handle, k: nat, id: string, wire: Wire, out: seq<Out>, f: Finish)
    requires T.Possible(run) && !T.FilesEverTooEarly(run) && !h.profiled && Faithful(wire)
    requires k <= |S.Log(T.After(run).logs, h)|
    requires EndsWell(Stream(id, wire, S.Log(T.After(run).logs, h)[..k]), out, f)
    requires f.Ended? && f.result.exitCode == 0
    ensures || (exists i, r :: && 0 <= i < |run| && T.Possible(run[..i]) && run[i] == M.Done(r, true)
                               && r in T.After(run[..i]).active && T.After(run[..i]).active[r].handle == h)
            || Asked(Calls(Stream(id, wire, S.Log(T.After(run).logs, h)[..k])), 0)
  {
    SuccessInLog(run, h, k, id, wire, out, f);
    if S.ExecutionDone(true) in S.Log(T.After(run).logs, h) { var i, r := H.DoneIsReported(run, h, true); }
  }

  lemma SuccessInLog(run: seq<M.Event>, h: S.Handle, k: nat, id: string, wire: Wire, out: seq<Out>, f: Finish)
    requires T.Possible(run) && !T.FilesEverTooEarly(run) && !h.profiled && Faithful(wire)
    requires k <= |S.Log(T.After(run).logs, h)|
    requires EndsWell(Stream(id, wire, S.Log(T.After(run).logs, h)[..k]), out, f)
    requires f.Ended? && f.result.exitCode == 0
    ensures S.ExecutionDone(true) in S.Log(T.After(run).logs, h)
            || Asked(Calls(Stream(id, wire, S.Log(T.After(run).logs, h)[..k])), 0)
  {
    var log := S.Log(T.After(run).logs, h);
    T.RunInv(run);
    T.NeverVanishesIff(run);
    assert R.ChannelOk(h, log) && T.Honest(h, log);
    SuccessOnChannel(h, log, k, id, wire, out, f);
  }

  lemma SuccessOnChannel(h: S.Handle, log: seq<S.Msg>, k: nat, id: string, wire: Wire, out: seq<Out>, f: Finish)
    requires !h.profiled && R.ChannelOk(h, log) && T.Honest(h, log) && Faithful(wire) && k <= |log|
    requires EndsWell(Stream(id, wire, log[..k]), out, f) && f.Ended? && f.result.exitCode == 0
    ensures S.ExecutionDone(true) in log || Asked(Calls(Stream(id, wire, log[..k])), 0)
  {
    var stream, n := Stream(id, wire, log[..k]), f.consumed;
    CompleteCame(log, k, id, wire, out, f);
    WordBefore(h, log, n - 2);
    SuccessGround(stream[..n]);
    CallsGrow(stream, n);
    if Clean(stream[..n]) {
      CleanMeans(stream[..n], n - 2);
      CleanWord(log, k, n - 3, id, wire);
    }
  }

  lemma CleanWord(log: seq<S.Msg>, k: nat, i: nat, id: string, wire: Wire)
    requires Faithful(wire) && i < k <= |log| && R.Terminal(log[i]) && !log[i].Disconnect?
    requires !Failing(Stream(id, wire, log[..k])[i + 1])
    ensures S.ExecutionDone(true) in log
  {
    assert Stream(id, wire, log[..k])[i + 1] == wire(log[i]);
    assert log[i] == S.ExecutionDone(true);
  }

  /** On an honest channel a word on how the run ended comes right before its Complete. */
  lemma WordBefore(h: S.Handle, log: seq<S.Msg>, i: nat)
    requires !h.profiled && R.ChannelOk(h, log) && T.Honest(h, log) && i < |log| && log[i].Complete?
    ensures 0 < i == |log| - 1 && R.Terminal(log[i - 1])
  {
    assert log[i] in log && R.Proper(log);
    forall j | 0 <= j < |log| - 2 ensures !log[j].Complete? { assert log[..|log| - 2][j] == log[j]; }
  }

  /** Exit code 0 takes a Complete, and on an honest channel a word before it. */
  lemma CompleteCame(log: seq<S.Msg>, k: nat, id: string, wire: Wire, out: seq<Out>, f: Finish)
    requires Faithful(wire) && k <= |log|
    requires EndsWell(Stream(id, wire, log[..k]), out, f) && f.Ended? && f.result.exitCode == 0
    ensures 2 <= f.consumed <= k + 1 && log[f.consumed - 2].Complete? && S.Complete in log
    ensures forall i :: 0 <= i < f.consumed - 2 ==> !log[i].Disconnect?
    ensures Judged(Stream(id, wire, log[..k])[..f.consumed], 0)
  {
    var stream, n := Stream(id, wire, log[..k]), f.consumed;
    assert n > 1 && stream[n - 1].Complete? && stream[n - 1] == wire(log[n - 2]);
    assert log[n - 2] in log;
    forall i | 0 <= i < n - 2 ensures !log[i].Disconnect? { ArrivesAs(log, k, i, id, wire); }
  }

  lemma ArrivesAs(log: seq<S.Msg>, k: nat, i: nat, id: string, wire: Wire)
    requires Faithful(wire) && i < k <= |log|
    ensures Last(Stream(id, wire, log[..k])[i + 1]) <==> log[i].Complete? || log[i].Disconnect?
  {
    assert Stream(id, wire, log[..k])[i + 1] == wire(log[i]);
  }

  lemma SuccessGround(events: seq<Event>)
    requires Judged(events, 0)
    ensures Clean(events) || Asked(Calls(events), 0)
  {
    var heard :| Hears(events, heard) && ExitCode(events, heard) == 0;
    SuccessMeans(events, heard);
  }

  /** Where the master's exception strikes, the client is fooled: on a channel that has
      nothing but output before its Complete, it ends with exit code 0, whatever the calls
      on it ask. */
  lemma BareIsTakenForSuccess(log: seq<S.Msg>, id: string, wire: Wire, out: seq<Out>, f: Finish)
    requires R.Bare(log) && Faithful(wire) && EndsWell(Stream(id, wire, log), out, f) && f.Ended?
    ensures f.consumed == |log| + 1 && f.result.ok && f.result.exitCode == 0
  {
    var stream, n := Stream(id, wire, log), f.consumed;
    forall i | 0 <= i < |log| ensures !Flushing(stream[i]) && !Last(stream[i]) { QuietArrives(log, i, id, wire); }
    assert n == |stream| && stream[n - 1] == wire(S.Complete) && stream[..n] == stream;
    var heard :| Hears(stream, heard) && ExitCode(stream, heard) == f.result.exitCode;
    UnendedIsZero(stream, heard);
  }

  lemma QuietArrives(log: seq<S.Msg>, i: nat, id: string, wire: Wire)
    requires R.Bare(log) && Faithful(wire) && i < |log|
    ensures !Flushing(Stream(id, wire, log)[i]) && !Last(Stream(id, wire, log)[i])
  {
    if i > 0 {
      assert log[..|log| - 1][i - 1] == log[i - 1];
      assert Stream(id, wire, log)[i] == wire(log[i - 1]);
    }
  }
}
