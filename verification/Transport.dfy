/** Script source on its way from the run client through the master to the plugin.
    Both hops cut it into pieces at UTF-8 boundaries (rodeo-client/src/run.rs,
    rodeo-cli/src/master/mod.rs); the master glues the first hop's pieces back
    together (rodeo-cli/src/master/grpc.rs). */
module Transport {
  import opened Utf8

  const SCRIPT_CHUNK_SIZE := 8_000_000
  const MAX_SCRIPT_SIZE := 256 * 1024 * 1024

  /** The `ScriptChunk` message. */
  datatype Chunk = Chunk(data: seq<Byte>, isLast: bool)

  /** What follows the first message on the client's stream. */
  datatype ClientMessage = ScriptChunk(chunk: Chunk) | Other

  datatype Error = OverCeiling | StreamEnded | UnexpectedMessage

  /** A reassembled script and the number of messages it took from the stream. */
  datatype Assembled = Script(script: seq<Byte>, consumed: nat) | Rejected(error: Error)

  function Concat(pieces: seq<seq<Byte>>): seq<Byte> {
    if pieces == [] then [] else pieces[0] + Concat(pieces[1..])
  }

  lemma {:induction false} ConcatAppend(a: seq<seq<Byte>>, b: seq<seq<Byte>>)
    ensures Concat(a + b) == Concat(a) + Concat(b)
  {
    if a == [] {
      assert a + b == b;
    } else {
      assert (a + b)[1..] == a[1..] + b;
      ConcatAppend(a[1..], b);
    }
  }

  // ---------------------------------------------------------------- splitting

  /** p is the piece a splitter must cut from the front of s: the longest
      non-empty well-formed prefix of at most size bytes. */
  ghost predicate LongestPrefix(p: seq<Byte>, s: seq<Byte>, size: nat) {
    && p <= s && 0 < |p| <= size && Valid(p)
    && forall i :: |p| < i <= size && i <= |s| ==> !Valid(s[..i])
  }

  /** pieces cut s up: every piece but the last is the longest prefix of what was
      left, and the last is what was left once that fitted. Well-formed text has
      exactly one such cut (CutUpUnique). */
  ghost predicate CutUp(pieces: seq<seq<Byte>>, s: seq<Byte>, size: nat)
    decreases |pieces|
  {
    pieces != [] &&
    if |s| <= size then pieces == [s]
    else LongestPrefix(pieces[0], s, size) && CutUp(pieces[1..], s[|pieces[0]|..], size)
  }

  lemma ConcatOne(p: seq<Byte>)
    ensures Concat([p]) == p
  {
    assert [p][1..] == [];
  }

  lemma {:induction false} CutUpUnique(a: seq<seq<Byte>>, b: seq<seq<Byte>>, s: seq<Byte>, size: nat)
    requires CutUp(a, s, size) && CutUp(b, s, size)
    ensures a == b
    decreases |a|
  {
    if size < |s| {
      assert a[0] == s[..|a[0]|] && b[0] == s[..|b[0]|];
      assert |a[0]| == |b[0]|;
      CutUpUnique(a[1..], b[1..], s[|a[0]|..], size);
      assert a == [a[0]] + a[1..] && b == [b[0]] + b[1..];
    }
  }

  /** What a cut-up gives the wire: nothing lost, every piece well formed and small. */
  lemma {:induction false} CutUpMeans(pieces: seq<seq<Byte>>, s: seq<Byte>, size: nat)
    requires Valid(s) && CutUp(pieces, s, size)
    ensures Concat(pieces) == s
    ensures forall k :: 0 <= k < |pieces| ==> Valid(pieces[k]) && |pieces[k]| <= size
    ensures forall k :: 0 <= k < |pieces| && 1 < |pieces| ==> pieces[k] != []
    ensures |pieces| == 1 <==> |s| <= size
    decreases |pieces|
  {
    if |s| <= size {
      ConcatOne(s);
    } else {
      var p := pieces[0];
      assert p == s[..|p|];
      if Continuation(s[|p|]) {
        BoundaryAfterPrefix(s, |p|);
        assert false;
      }
      BoundaryIff(s, |p|);
      CutUpMeans(pieces[1..], s[|p|..], size);
      assert s == p + s[|p|..];
      assert forall k :: 1 <= k < |pieces| ==> pieces[k] == pieces[1..][k - 1];
    }
  }

  /** The back-off to the last boundary within the size. */
  method BackOff(rest: seq<Byte>, size: nat) returns (cut: nat)
    requires Valid(rest) && 4 <= size < |rest|
    ensures 0 < cut <= size && IsCharBoundary(rest, cut)
    ensures forall i :: cut < i <= size ==> !IsCharBoundary(rest, i)
  {
    cut := size;
    ghost var near := BoundaryWithinFour(rest, size);
    while !IsCharBoundary(rest, cut)
      invariant near <= cut <= size
      invariant forall i :: cut < i <= size ==> !IsCharBoundary(rest, i)
      decreases cut
    {
      cut := cut - 1;
    }
  }

  /** One more piece cut off: what completes the cut of the rest completes all. */
  lemma CutNext(script: seq<Byte>, pieces: seq<seq<Byte>>, rest: seq<Byte>, cut: nat, size: nat, tail: seq<seq<Byte>>)
    requires Valid(rest) && 0 < cut <= size < |rest| && IsCharBoundary(rest, cut)
    requires forall i :: cut < i <= size ==> !IsCharBoundary(rest, i)
    requires CutUp(tail, rest[cut..], size)
    requires CutUp([rest[..cut]] + tail, rest, size) ==> CutUp(pieces + ([rest[..cut]] + tail), script, size)
    ensures CutUp((pieces + [rest[..cut]]) + tail, script, size)
  {
    HeadIsLongest(rest, cut, size);
    assert ([rest[..cut]] + tail)[1..] == tail;
    assert pieces + ([rest[..cut]] + tail) == (pieces + [rest[..cut]]) + tail;
  }

  /** The loop of `run_inner` and of `build_run_command`. */
  method SplitScript(script: seq<Byte>, size: nat) returns (pieces: seq<seq<Byte>>)
    requires Valid(script) && 4 <= size
    ensures CutUp(pieces, script, size)
  {
    var rest := script;
    pieces := [];
    assert forall tail: seq<seq<Byte>> :: pieces + tail == tail;
    while |rest| > size
      invariant Valid(rest)
      invariant forall tail :: CutUp(tail, rest, size) ==> CutUp(pieces + tail, script, size)
      decreases |rest|
    {
      var cut := BackOff(rest, size);
      var head, next := rest[..cut], rest[cut..];
      BoundaryIff(rest, cut);
      forall tail | CutUp(tail, next, size) ensures CutUp((pieces + [head]) + tail, script, size) {
        CutNext(script, pieces, rest, cut, size, tail);
      }
      pieces := pieces + [head];
      rest := next;
    }
    assert CutUp([rest], rest, size);
    pieces := pieces + [rest];
  }

  lemma HeadIsLongest(s: seq<Byte>, cut: nat, size: nat)
    requires Valid(s) && 0 < cut <= size < |s| && IsCharBoundary(s, cut)
    requires forall i :: cut < i <= size ==> !IsCharBoundary(s, i)
    ensures LongestPrefix(s[..cut], s, size)
  {
    BoundaryIff(s, cut);
    forall i | cut < i <= size && i <= |s| ensures !Valid(s[..i]) {
      if Valid(s[..i]) {
        BoundaryAfterPrefix(s, i);
        assert IsCharBoundary(s, i);
      }
    }
  }

  // ------------------------------------------------------------- the two hops

  /** The tail messages: pieces 1.. in order, the last one flagged. */
  function TailChunks(pieces: seq<seq<Byte>>): (chunks: seq<Chunk>)
    requires pieces != []
    ensures |chunks| == |pieces| - 1
  {
    seq(|pieces| - 1, i requires 0 <= i < |pieces| - 1 => Chunk(pieces[i + 1], i + 1 == |pieces| - 1))
  }

  /** The messages of a cut: the first piece, whether chunks follow, and the others in
      order, the last of them flagged. */
  ghost predicate Framed(pieces: seq<seq<Byte>>, first: seq<Byte>, continues: bool, tail: seq<Chunk>) {
    && pieces != [] && first == pieces[0] && (continues <==> |pieces| > 1) && |tail| == |pieces| - 1
    && forall k :: 0 <= k < |tail| ==> tail[k] == Chunk(pieces[k + 1], k == |tail| - 1)
  }

  lemma FramedTail(pieces: seq<seq<Byte>>, first: seq<Byte>, continues: bool, tail: seq<Chunk>)
    requires Framed(pieces, first, continues, tail)
    ensures tail == TailChunks(pieces)
  {
  }

  /** The client's side: the first piece rides in the submit, `continues` says that
      chunks follow. */
  method Submit(source: seq<Byte>) returns (ok: bool, script: seq<Byte>, continues: bool, tail: seq<Chunk>)
    requires Valid(source)
    ensures ok <==> |source| <= 268_435_456
    ensures ok ==> exists pieces :: CutUp(pieces, source, 8_000_000) && Framed(pieces, script, continues, tail)
  {
    ok, script, continues, tail := true, source, false, [];
    if |source| > MAX_SCRIPT_SIZE {
      ok := false;
      return;
    }
    if |source| > SCRIPT_CHUNK_SIZE {
      var pieces := SplitScript(source, SCRIPT_CHUNK_SIZE);
      CutUpMeans(pieces, source, SCRIPT_CHUNK_SIZE);
      script := pieces[0];
      continues := true;
      var last := |pieces| - 1;
      var i := 1;
      while i < |pieces|
        invariant 1 <= i <= |pieces|
        invariant tail == TailChunks(pieces)[..i - 1]
      {
        tail := tail + [Chunk(pieces[i], i == last)];
        i := i + 1;
      }
      assert tail == TailChunks(pieces);
      assert Framed(pieces, script, continues, tail);
    } else {
      assert CutUp([source], source, SCRIPT_CHUNK_SIZE) && Framed([source], script, continues, tail);
    }
  }

  /** The plugin's messages for a script: the frame in the run command, then chunks. */
  method BuildRunCommand(script: seq<Byte>) returns (first: seq<Byte>, continues: bool, tail: seq<Chunk>)
    requires Valid(script)
    ensures exists pieces :: CutUp(pieces, script, 8_000_000) && Framed(pieces, first, continues, tail)
  {
    var pieces := SplitScript(script, SCRIPT_CHUNK_SIZE);
    first := pieces[0];
    continues := |pieces| > 1;
    tail := [];
    var last := |pieces| - 1;
    var i := 1;
    while i < |pieces|
      invariant 1 <= i <= |pieces|
      invariant tail == TailChunks(pieces)[..i - 1]
    {
      tail := tail + [Chunk(pieces[i], i == last)];
      i := i + 1;
    }
    assert tail == TailChunks(pieces);
    assert Framed(pieces, first, continues, tail);
  }

  /** What the master makes of the stream behind a submit whose first piece is head. */
  function Assemble(head: seq<Byte>, stream: seq<ClientMessage>): (r: Assembled)
    decreases |stream|
  {
    if stream == [] then Rejected(StreamEnded)
    else if !stream[0].ScriptChunk? then Rejected(UnexpectedMessage)
    else
      var whole := head + stream[0].chunk.data;
      if |whole| > MAX_SCRIPT_SIZE then Rejected(OverCeiling)
      else if stream[0].chunk.isLast then Script(whole, 1)
      else match Assemble(whole, stream[1..])
           case Script(s, n) => Script(s, n + 1)
           case Rejected(e) => Rejected(e)
  }

  /** Only a submit that says so is followed by chunks. */
  function Received(script: seq<Byte>, continues: bool, stream: seq<ClientMessage>): (r: Assembled) {
    if continues then Assemble(script, stream) else Script(script, 0)
  }

  /** The reassembly loop of the `run` handler. */
  method Reassemble(script: seq<Byte>, continues: bool, stream: seq<ClientMessage>) returns (r: Assembled)
    ensures r == Received(script, continues, stream)
  {
    if !continues {
      return Script(script, 0);
    }
    var parts := [script];
    var total := |script|;
    var i := 0;
    ConcatOne(script);
    assert stream[0..] == stream;
    while true
      invariant 0 <= i <= |stream| && total == |Concat(parts)|
      invariant Assemble(script, stream) ==
                match Assemble(Concat(parts), stream[i..])
                case Script(s, n) => Script(s, n + i)
                case Rejected(e) => Rejected(e)
      decreases |stream| - i
    {
      if i == |stream| { return Rejected(StreamEnded); }
      if !stream[i].ScriptChunk? { return Rejected(UnexpectedMessage); }
      var chunk := stream[i].chunk;
      total := total + |chunk.data|;
      ConcatAppend(parts, [chunk.data]);
      ConcatOne(chunk.data);
      if total > MAX_SCRIPT_SIZE { return Rejected(OverCeiling); }
      parts := parts + [chunk.data];
      assert stream[i..][1..] == stream[i + 1..];
      i := i + 1;
      if chunk.isLast { return Script(Concat(parts), i); }
    }
  }

  // ------------------------------------------------------------- main results

  function Messages(chunks: seq<Chunk>): (r: seq<ClientMessage>)
    ensures |r| == |chunks|
  {
    seq(|chunks|, i requires 0 <= i < |chunks| => ScriptChunk(chunks[i]))
  }

  lemma {:induction false} AssembleTail(pieces: seq<seq<Byte>>, head: seq<Byte>, after: seq<ClientMessage>)
    requires 1 < |pieces| && |head + Concat(pieces[1..])| <= MAX_SCRIPT_SIZE
    ensures Assemble(head, Messages(TailChunks(pieces)) + after)
            == Script(head + Concat(pieces[1..]), |pieces| - 1)
    decreases |pieces|
  {
    var stream := Messages(TailChunks(pieces)) + after;
    assert stream[0] == ScriptChunk(Chunk(pieces[1], 1 == |pieces| - 1));
    assert Concat(pieces[1..]) == pieces[1] + Concat(pieces[1..][1..]);
    assert pieces[1..][1..] == pieces[2..];
    var whole := head + pieces[1];
    assert whole + Concat(pieces[2..]) == head + Concat(pieces[1..]);
    if |pieces| > 2 {
      AssembleTail(pieces[1..], whole, after);
      assert stream[1..] == Messages(TailChunks(pieces[1..])) + after;
    }
  }

  /** The master rebuilds exactly what the client cut, and takes exactly the script's
      messages from the stream, whatever follows them. */
  lemma AssembleInvertsCutUp(pieces: seq<seq<Byte>>, source: seq<Byte>, after: seq<ClientMessage>)
    requires Valid(source) && |source| <= MAX_SCRIPT_SIZE
    requires CutUp(pieces, source, SCRIPT_CHUNK_SIZE)
    ensures 1 < |pieces| ==> Assemble(pieces[0], Messages(TailChunks(pieces)) + after) == Script(source, |pieces| - 1)
    ensures |pieces| == 1 ==> pieces[0] == source
  {
    CutUpMeans(pieces, source, SCRIPT_CHUNK_SIZE);
    if 1 < |pieces| {
      AssembleTail(pieces, pieces[0], after);
    }
  }

  /** End to end: every well-formed script within the ceiling reaches the master
      unchanged, and the frames the master builds for the plugin are the client's own:
      well formed, within the chunk size, the last tail chunk alone flagged. Above the
      ceiling nothing is sent. */
  method TransportScript(source: seq<Byte>, after: seq<ClientMessage>)
    returns (sent: bool, arrived: Assembled, first: seq<Byte>, chunks: seq<Chunk>)
    requires Valid(source)
    ensures sent <==> |source| <= 268_435_456
    ensures sent ==> arrived == Script(source, |chunks|)
    ensures sent ==> exists pieces, more :: CutUp(pieces, source, 8_000_000) && Framed(pieces, first, more, chunks)
  {
    arrived, first, chunks := Rejected(OverCeiling), [], [];
    var script, continues, tail;
    sent, script, continues, tail := Submit(source);
    if !sent { return; }
    ghost var pieces :| CutUp(pieces, source, 8_000_000) && Framed(pieces, script, continues, tail);
    FramedTail(pieces, script, continues, tail);
    AssembleInvertsCutUp(pieces, source, after);
    arrived := Reassemble(script, continues, Messages(tail) + after);
    assert arrived == Script(source, |pieces| - 1);
    var again;
    first, again, chunks := BuildRunCommand(arrived.script);
    ghost var pieces2 :| CutUp(pieces2, source, 8_000_000) && Framed(pieces2, first, again, chunks);
    CutUpUnique(pieces, pieces2, source, SCRIPT_CHUNK_SIZE);
  }

  /** The first n messages are chunks, and the last of them is the flagged one. */
  predicate ChunksUpTo(stream: seq<ClientMessage>, n: nat) {
    0 < n <= |stream| && forall k :: 0 <= k < n ==> stream[k].ScriptChunk? && (stream[k].chunk.isLast <==> k == n - 1)
  }

  function DataOf(stream: seq<ClientMessage>, n: nat): seq<Byte>
    requires n <= |stream| && forall k :: 0 <= k < n ==> stream[k].ScriptChunk?
  {
    if n == 0 then [] else stream[0].chunk.data + DataOf(stream[1..], n - 1)
  }

  /** Chunks are taken exactly up to the flagged one, if what they hold with the head is
      within the ceiling: then it is the script. */
  lemma {:induction false} AssembleIff(head: seq<Byte>, stream: seq<ClientMessage>, s: seq<Byte>, n: nat)
    ensures Assemble(head, stream) == Script(s, n)
            <==> ChunksUpTo(stream, n) && s == head + DataOf(stream, n) && |s| <= 268_435_456
    decreases |stream|
  {
    if 0 < n && stream != [] && stream[0].ScriptChunk? && !stream[0].chunk.isLast {
      var data, rest := stream[0].chunk.data, stream[1..];
      AssembleIff(head + data, rest, s, n - 1);
      ChunksUpToNext(stream, n);
      if ChunksUpTo(stream, n) { assert head + DataOf(stream, n) == head + data + DataOf(rest, n - 1); }
    } else if n == 1 && ChunksUpTo(stream, n) {
      assert DataOf(stream, 1) == stream[0].chunk.data + DataOf(stream[1..], 0) == stream[0].chunk.data;
    }
  }

  /** After n unflagged chunks within the ceiling the stream is refused: it ends there, or
      goes on with something else, or with a chunk over the ceiling. */
  ghost predicate RefusedAfter(head: seq<Byte>, stream: seq<ClientMessage>, n: nat, error: Error) {
    && n <= |stream| && (forall k :: 0 <= k < n ==> stream[k].ScriptChunk? && !stream[k].chunk.isLast)
    && (n > 0 ==> |head + DataOf(stream, n)| <= 268_435_456)
    && (if n == |stream| then error == StreamEnded
        else if !stream[n].ScriptChunk? then error == UnexpectedMessage
        else error == OverCeiling && |head + DataOf(stream, n) + stream[n].chunk.data| > 268_435_456)
  }

  lemma {:induction false} AssembleRefuses(head: seq<Byte>, stream: seq<ClientMessage>, error: Error)
    ensures Assemble(head, stream) == Rejected(error) <==> exists n: nat :: RefusedAfter(head, stream, n, error)
    decreases |stream|
  {
    if stream != [] && stream[0].ScriptChunk? && !stream[0].chunk.isLast && |head + stream[0].chunk.data| <= MAX_SCRIPT_SIZE {
      var whole, rest := head + stream[0].chunk.data, stream[1..];
      AssembleRefuses(whole, rest, error);
      forall n: nat ensures RefusedAfter(head, stream, n + 1, error) <==> RefusedAfter(whole, rest, n, error) {
        RefusedNext(head, stream, n, error);
      }
      if Assemble(head, stream) == Rejected(error) {
        var n: nat :| RefusedAfter(whole, rest, n, error);
        assert RefusedAfter(head, stream, n + 1, error);
      }
      if exists n: nat :: RefusedAfter(head, stream, n, error) {
        var n: nat :| RefusedAfter(head, stream, n, error);
        if n > 0 { assert RefusedAfter(whole, rest, n - 1, error); }
      }
    } else {
      RefusedAtOnce(head, stream, error);
    }
  }

  lemma RefusedNext(head: seq<Byte>, stream: seq<ClientMessage>, n: nat, error: Error)
    requires stream != [] && stream[0].ScriptChunk? && !stream[0].chunk.isLast
    requires |head + stream[0].chunk.data| <= MAX_SCRIPT_SIZE
    ensures RefusedAfter(head, stream, n + 1, error) <==> RefusedAfter(head + stream[0].chunk.data, stream[1..], n, error)
  {
    var rest := stream[1..];
    assert forall k :: 1 <= k < |stream| ==> stream[k] == rest[k - 1];
    if n <= |rest| && forall k :: 0 <= k < n ==> rest[k].ScriptChunk? {
      assert head + DataOf(stream, n + 1) == head + stream[0].chunk.data + DataOf(rest, n);
      NextIsOver(head + DataOf(stream, n + 1), head + stream[0].chunk.data + DataOf(rest, n), rest, n);
    }
  }

  lemma NextIsOver(a: seq<Byte>, b: seq<Byte>, rest: seq<ClientMessage>, n: nat)
    requires a == b && n <= |rest|
    ensures n < |rest| && rest[n].ScriptChunk? ==> a + rest[n].chunk.data == b + rest[n].chunk.data
  {
  }

  lemma RefusedAtOnce(head: seq<Byte>, stream: seq<ClientMessage>, error: Error)
    requires stream == [] || !stream[0].ScriptChunk? || stream[0].chunk.isLast || |head + stream[0].chunk.data| > MAX_SCRIPT_SIZE
    ensures Assemble(head, stream) == Rejected(error) <==> exists n: nat :: RefusedAfter(head, stream, n, error)
  {
    assert head + DataOf(stream, 0) == head;
    forall n: nat | n > 0 ensures !RefusedAfter(head, stream, n, error) {
      if n <= |stream| && (forall k :: 0 <= k < n ==> stream[k].ScriptChunk? && !stream[k].chunk.isLast) {
        DataGrows(stream, n);
      }
    }
    assert Assemble(head, stream) == Rejected(error) <==> RefusedAfter(head, stream, 0, error);
  }

  lemma DataGrows(stream: seq<ClientMessage>, n: nat)
    requires 0 < n <= |stream| && forall k :: 0 <= k < n ==> stream[k].ScriptChunk?
    ensures |DataOf(stream, n)| >= |stream[0].chunk.data|
  {
  }

  lemma ChunksUpToNext(stream: seq<ClientMessage>, n: nat)
    requires 0 < n && stream != []
    ensures ChunksUpTo(stream, n) && 1 < n <==> stream[0].ScriptChunk? && !stream[0].chunk.isLast && ChunksUpTo(stream[1..], n - 1)
  {
    assert forall k :: 1 <= k < |stream| ==> stream[k] == stream[1..][k - 1];
  }

  /** So a script comes out over the ceiling exactly when it came whole, in one submit:
      such a submit is never measured. */
  lemma OverCeilingIff(script: seq<Byte>, continues: bool, stream: seq<ClientMessage>)
    requires Received(script, continues, stream).Script?
    ensures |Received(script, continues, stream).script| > 268_435_456 <==> !continues && |script| > 268_435_456
  {
    if continues { AssembleWithinCeiling(script, stream); }
  }

  /** No stream, however hand-made, gets an oversized script past the chunked path. */
  lemma AssembleWithinCeiling(head: seq<Byte>, stream: seq<ClientMessage>)
    requires Assemble(head, stream).Script?
    ensures |Assemble(head, stream).script| <= 268_435_456
    ensures ChunksUpTo(stream, Assemble(head, stream).consumed)
  {
    AssembleIff(head, stream, Assemble(head, stream).script, Assemble(head, stream).consumed);
  }
}
