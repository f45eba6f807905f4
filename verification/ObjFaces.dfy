/** The OBJ reader, told by the file: what every line defines, which token every corner of
    the mesh is, and which line is to blame when there is no mesh. */
module ObjFaces {
  import opened Options
  import opened MeshCodec
  import opened ObjReader

  // --------------------------------------------------------------------- what lines define

  /** The lines of a kind among the first n. */
  ghost function Among(kind: Line -> bool, lines: seq<Line>, n: nat): set<int>
    requires n <= |lines|
  {
    set m | 0 <= m < n && kind(lines[m])
  }

  lemma AmongMore(kind: Line -> bool, lines: seq<Line>, n: nat)
    requires 0 < n <= |lines|
    ensures |Among(kind, lines, n)| == |Among(kind, lines, n - 1)| + if kind(lines[n - 1]) then 1 else 0
  {
    assert Among(kind, lines, n) == Among(kind, lines, n - 1) + if kind(lines[n - 1]) then {n - 1} else {};
  }

  lemma AmongNone(kind: Line -> bool, lines: seq<Line>)
    ensures |Among(kind, lines, 0)| == 0
  {
    assert Among(kind, lines, 0) == {};
  }

  function IsVertex(): Line -> bool { (line: Line) => line.Vertex? }
  function IsTexture(): Line -> bool { (line: Line) => line.Texture? }
  function IsNormal(): Line -> bool { (line: Line) => line.Normal? }

  /** How many positions, texture coordinates and normals the first n lines define. */
  ghost function VertexCount(lines: seq<Line>, n: nat): nat requires n <= |lines| { |Among(IsVertex(), lines, n)| }
  ghost function TextureCount(lines: seq<Line>, n: nat): nat requires n <= |lines| { |Among(IsTexture(), lines, n)| }
  ghost function NormalCount(lines: seq<Line>, n: nat): nat requires n <= |lines| { |Among(IsNormal(), lines, n)| }

  lemma {:induction false} DefinedCounts(lines: seq<Line>, n: nat)
    requires n <= |lines|
    ensures var d := Defined(lines, n);
            |d.positions| == VertexCount(lines, n) && |d.uvs| == TextureCount(lines, n) && |d.normals| == NormalCount(lines, n)
  {
    if n == 0 {
      AmongNone(IsVertex(), lines);
      AmongNone(IsTexture(), lines);
      AmongNone(IsNormal(), lines);
    } else {
      DefinedCounts(lines, n - 1);
      AmongMore(IsVertex(), lines, n);
      AmongMore(IsTexture(), lines, n);
      AmongMore(IsNormal(), lines, n);
    }
  }

  /** An item's number is the number of lines of its kind before it. */
  lemma {:induction false} DefinedExact(lines: seq<Line>, n: nat, m: nat)
    requires m < n <= |lines|
    ensures var d := Defined(lines, n);
            && |d.positions| == VertexCount(lines, n) && |d.uvs| == TextureCount(lines, n) && |d.normals| == NormalCount(lines, n)
            && (lines[m].Vertex? ==> VertexCount(lines, m) < |d.positions| && d.positions[VertexCount(lines, m)] == lines[m].row)
            && (lines[m].Texture? ==> TextureCount(lines, m) < |d.uvs| && d.uvs[TextureCount(lines, m)] == lines[m].row)
            && (lines[m].Normal? ==> NormalCount(lines, m) < |d.normals| && d.normals[NormalCount(lines, m)] == lines[m].row)
  {
    DefinedCounts(lines, n);
    DefinedCounts(lines, m);
    DefinedGrows(lines, m + 1, n);
  }

  // ------------------------------------------------------------------------------- corners

  /** The field is a number that names item i of count, and w is that number in 32 bits. */
  predicate Picks(f: Field, count: nat, w: Word) {
    f.Index? && ((0 < f.n <= count && w == (f.n - 1) % 0x1_0000_0000)
                 || (f.n < 0 <= count + f.n && w == (count + f.n) % 0x1_0000_0000))
  }

  predicate PicksOpt(f: Option<Field>, count: nat, w: Option<Word>) {
    if f.None? then w.None? else w.Some? && Picks(f.value, count, w.value)
  }

  /** The token, on line l, stands for the corner: counting what is defined by then. */
  ghost predicate StandsFor(lines: seq<Line>, l: nat, t: Token, c: Corner)
    requires l <= |lines|
  {
    && t.Token? && Picks(t.v, VertexCount(lines, l), c.v)
    && PicksOpt(t.vt, TextureCount(lines, l), c.vt) && PicksOpt(t.vn, NormalCount(lines, l), c.vn)
  }

  lemma FieldIff(f: Field, count: nat, w: Word)
    ensures ResolveField(f, count) == Done(w) <==> Picks(f, count, w)
  {
    if f.Index? {
      if 0 < f.n <= count { NarrowIs(f.n - 1); }
      if f.n < 0 <= count + f.n { NarrowIs(count + f.n); }
    }
  }

  lemma CornerIff(lines: seq<Line>, l: nat, t: Token, c: Corner)
    requires l <= |lines|
    ensures ParseCorner(t, Defined(lines, l)) == Done(c) <==> StandsFor(lines, l, t, c)
  {
    DefinedCounts(lines, l);
    if t.Token? {
      FieldIff(t.v, VertexCount(lines, l), c.v);
      if t.vt.Some? && c.vt.Some? { FieldIff(t.vt.value, TextureCount(lines, l), c.vt.value); }
      if t.vn.Some? && c.vn.Some? { FieldIff(t.vn.value, NormalCount(lines, l), c.vn.value); }
    }
  }

  // --------------------------------------------------------------------------------- faces

  /** The polygon's corners are the tokens, one by one. */
  ghost predicate IsPolygon(lines: seq<Line>, l: nat, tokens: seq<Token>, polygon: seq<Corner>)
    requires l <= |lines|
  {
    |polygon| == |tokens| && forall j :: 0 <= j < |tokens| ==> StandsFor(lines, l, tokens[j], polygon[j])
  }

  /** The corners that line l adds: of a face of three tokens those three, in their order; of
      a longer one what the triangulator makes of them; of any other line none. */
  ghost predicate Adds(lines: seq<Line>, l: nat, tri: Triangulator, added: seq<Corner>)
    requires l < |lines|
  {
    match lines[l]
    case Face(tokens) =>
      if |tokens| == 3 then IsPolygon(lines, l, tokens, added)
      else |tokens| > 3 && exists polygon :: IsPolygon(lines, l, tokens, polygon) && tri(polygon, Defined(lines, l).positions) == Some(added)
    case Unreadable => false
    case _ => added == []
  }

  lemma {:induction false} FaceIff(lines: seq<Line>, l: nat, tokens: seq<Token>, polygon: seq<Corner>)
    requires l <= |lines|
    ensures FaceCorners(tokens, Defined(lines, l)) == Done(polygon) <==> IsPolygon(lines, l, tokens, polygon)
  {
    if tokens != [] {
      var n := |tokens| - 1;
      if |polygon| == |tokens| {
        FaceIff(lines, l, tokens[..n], polygon[..n]);
        CornerIff(lines, l, tokens[n], polygon[n]);
        assert polygon == polygon[..n] + [polygon[n]];
        PolygonInit(lines, l, tokens, polygon);
      }
    }
  }

  lemma PolygonInit(lines: seq<Line>, l: nat, tokens: seq<Token>, polygon: seq<Corner>)
    requires l <= |lines| && |polygon| == |tokens| > 0
    ensures var n := |tokens| - 1;
            IsPolygon(lines, l, tokens, polygon) <==>
              IsPolygon(lines, l, tokens[..n], polygon[..n]) && StandsFor(lines, l, tokens[n], polygon[n])
  {
  }

  lemma AddsIff(lines: seq<Line>, l: nat, tri: Triangulator, added: seq<Corner>)
    requires l < |lines|
    ensures LineTriangles(lines, l, tri) == Done(added) <==> Adds(lines, l, tri, added)
  {
    if lines[l].Face? {
      var tokens := lines[l].tokens;
      FaceIff(lines, l, tokens, added);
      if LineTriangles(lines, l, tri).Done? {
        var polygon := FaceCorners(tokens, Defined(lines, l)).value;
        FaceIff(lines, l, tokens, polygon);
      }
      if |tokens| > 3 && Adds(lines, l, tri, added) {
        var polygon :| IsPolygon(lines, l, tokens, polygon) && tri(polygon, Defined(lines, l).positions) == Some(added);
        FaceIff(lines, l, tokens, polygon);
      }
    }
  }

  /** Line l adds the corners from a up to b. */
  ghost predicate AddsFrom(lines: seq<Line>, l: nat, tri: Triangulator, corners: seq<Corner>, a: nat, b: nat)
    requires l < |lines|
  {
    a <= b <= |corners| && Adds(lines, l, tri, corners[a..b])
  }

  /** Line after line, with nothing between or missing: line l adds the corners from starts[l]
      up to starts[l + 1]. */
  ghost predicate InOrder(lines: seq<Line>, n: nat, tri: Triangulator, corners: seq<Corner>, starts: seq<nat>)
    requires n <= |lines|
  {
    && |starts| == n + 1 && starts[0] == 0 && starts[n] == |corners|
    && forall l :: 0 <= l < n ==> AddsFrom(lines, l, tri, corners, starts[l], starts[l + 1])
  }

  lemma {:induction false} CornersInOrder(lines: seq<Line>, n: nat, tri: Triangulator) returns (starts: seq<nat>)
    requires n <= |lines| && Corners(lines, n, tri).Done?
    ensures InOrder(lines, n, tri, Corners(lines, n, tri).value, starts)
  {
    if n == 0 { return [0]; }
    var before, corners := Corners(lines, n - 1, tri).value, Corners(lines, n, tri).value;
    var added := LineTriangles(lines, n - 1, tri).value;
    var first := CornersInOrder(lines, n - 1, tri);
    starts := first + [|corners|];
    AddsIff(lines, n - 1, tri, added);
    assert corners[|before|..|corners|] == added;
    forall l | 0 <= l < n ensures AddsFrom(lines, l, tri, corners, starts[l], starts[l + 1]) {
      if l < n - 1 {
        assert AddsFrom(lines, l, tri, before, first[l], first[l + 1]);
        assert corners[first[l]..first[l + 1]] == before[first[l]..first[l + 1]];
      }
    }
  }

  lemma {:induction false} OrderedCorners(lines: seq<Line>, n: nat, tri: Triangulator, corners: seq<Corner>, starts: seq<nat>)
    requires n <= |lines| && InOrder(lines, n, tri, corners, starts)
    ensures Corners(lines, n, tri) == Done(corners)
  {
    if n > 0 {
      var init, added := corners[..starts[n - 1]], corners[starts[n - 1]..];
      assert AddsFrom(lines, n - 1, tri, corners, starts[n - 1], starts[n]);
      assert corners[starts[n - 1]..starts[n]] == added && init + added == corners;
      AddsIff(lines, n - 1, tri, added);
      OrderInit(lines, n, tri, corners, starts);
      OrderedCorners(lines, n - 1, tri, init, starts[..n]);
    } else {
      assert corners == [];
    }
  }

  lemma {:induction false} StartsRise(lines: seq<Line>, n: nat, tri: Triangulator, corners: seq<Corner>, starts: seq<nat>, l: nat, m: nat)
    requires n <= |lines| && InOrder(lines, n, tri, corners, starts) && l <= m <= n
    ensures starts[l] <= starts[m]
  {
    if l < m {
      StartsRise(lines, n, tri, corners, starts, l, m - 1);
      assert AddsFrom(lines, m - 1, tri, corners, starts[m - 1], starts[m]);
    }
  }

  lemma OrderInit(lines: seq<Line>, n: nat, tri: Triangulator, corners: seq<Corner>, starts: seq<nat>)
    requires 0 < n <= |lines| && InOrder(lines, n, tri, corners, starts)
    ensures starts[n - 1] <= |corners| && InOrder(lines, n - 1, tri, corners[..starts[n - 1]], starts[..n])
  {
    StartsRise(lines, n, tri, corners, starts, n - 1, n);
    var init := corners[..starts[n - 1]];
    forall l | 0 <= l < n - 1 ensures AddsFrom(lines, l, tri, init, starts[..n][l], starts[..n][l + 1]) {
      StartsRise(lines, n, tri, corners, starts, l + 1, n - 1);
      assert AddsFrom(lines, l, tri, corners, starts[l], starts[l + 1]);
      assert init[starts[l]..starts[l + 1]] == corners[starts[l]..starts[l + 1]];
    }
  }

  /** The corners of a file are those its lines add, in the lines' order; and there are none
      to be had only if some line adds nothing it should. */
  lemma CornersIff(lines: seq<Line>, tri: Triangulator, corners: seq<Corner>)
    ensures Corners(lines, |lines|, tri) == Done(corners) <==> exists starts :: InOrder(lines, |lines|, tri, corners, starts)
  {
    if Corners(lines, |lines|, tri) == Done(corners) { var starts := CornersInOrder(lines, |lines|, tri); }
    if starts :| InOrder(lines, |lines|, tri, corners, starts) { OrderedCorners(lines, |lines|, tri, corners, starts); }
  }

  // ------------------------------------------------------------------------------ failures

  /** What is wrong with a token on line l. */
  ghost predicate BadToken(lines: seq<Line>, l: nat, t: Token, why: Failure)
    requires l <= |lines|
  {
    if t.Malformed? then why == BadCorner else why == BadIndex && !exists c :: StandsFor(lines, l, t, c)
  }

  /** What is wrong with line l: numbers that are none, a face of fewer than three tokens, its
      first token that names nothing, or a polygon the triangulator refuses. */
  ghost predicate BadLine(lines: seq<Line>, l: nat, tri: Triangulator, why: Failure)
    requires l < |lines|
  {
    match lines[l]
    case Face(tokens) =>
      if |tokens| < 3 then why == FewCorners
      else
        || (exists j :: && 0 <= j < |tokens| && BadToken(lines, l, tokens[j], why)
                        && exists polygon :: IsPolygon(lines, l, tokens[..j], polygon))
        || (|tokens| > 3 && why == Untriangulable
            && exists polygon :: IsPolygon(lines, l, tokens, polygon) && tri(polygon, Defined(lines, l).positions).None?)
    case Unreadable => why == BadNumber
    case _ => false
  }

  lemma TokenFails(lines: seq<Line>, l: nat, t: Token)
    requires l <= |lines| && ParseCorner(t, Defined(lines, l)).Failed?
    ensures BadToken(lines, l, t, ParseCorner(t, Defined(lines, l)).why)
  {
    forall c ensures !StandsFor(lines, l, t, c) { CornerIff(lines, l, t, c); }
  }

  lemma {:induction false} FaceFails(lines: seq<Line>, l: nat, tokens: seq<Token>) returns (j: nat, polygon: seq<Corner>)
    requires l <= |lines| && FaceCorners(tokens, Defined(lines, l)).Failed?
    ensures j < |tokens| && BadToken(lines, l, tokens[j], FaceCorners(tokens, Defined(lines, l)).why)
    ensures IsPolygon(lines, l, tokens[..j], polygon)
  {
    var n := |tokens| - 1;
    assert tokens != [];
    var before := FaceCorners(tokens[..n], Defined(lines, l));
    if before.Failed? {
      j, polygon := FaceFails(lines, l, tokens[..n]);
      assert tokens[..n][..j] == tokens[..j];
    } else {
      j, polygon := n, before.value;
      FaceIff(lines, l, tokens[..n], polygon);
      TokenFails(lines, l, tokens[n]);
    }
  }

  lemma LineFails(lines: seq<Line>, l: nat, tri: Triangulator)
    requires l < |lines| && LineTriangles(lines, l, tri).Failed?
    ensures BadLine(lines, l, tri, LineTriangles(lines, l, tri).why)
  {
    if lines[l].Face? && |lines[l].tokens| >= 3 {
      var tokens := lines[l].tokens;
      if FaceCorners(tokens, Defined(lines, l)).Failed? {
        var j, polygon := FaceFails(lines, l, tokens);
      } else {
        FaceIff(lines, l, tokens, FaceCorners(tokens, Defined(lines, l)).value);
      }
    }
  }

  /** If there are no corners, the first line that adds none as it should says why. */
  lemma {:induction false} FirstBadLine(lines: seq<Line>, n: nat, tri: Triangulator) returns (l: nat)
    requires n <= |lines| && Corners(lines, n, tri).Failed?
    ensures l < n && BadLine(lines, l, tri, Corners(lines, n, tri).why)
    ensures exists corners, starts :: InOrder(lines, l, tri, corners, starts)
  {
    if Corners(lines, n - 1, tri).Failed? {
      l := FirstBadLine(lines, n - 1, tri);
    } else {
      l := n - 1;
      LineFails(lines, l, tri);
      var starts := CornersInOrder(lines, l, tri);
    }
  }

  // ------------------------------------------------------------------------------ the mesh

  /** The corners are alike in everything the mesh keeps. */
  predicate Alike(mesh: Mesh, a: Corner, b: Corner) {
    a.v == b.v && (mesh.uvs.Some? ==> a.vt == b.vt) && (mesh.normals.Some? ==> a.vn == b.vn)
  }

  /** Vertex number at shows the data of the corner, in every attribute the mesh keeps. */
  ghost predicate Shows(mesh: Mesh, lists: Lists, c: Corner, at: nat) {
    && at < |mesh.positions| && c.v < |lists.positions| && mesh.positions[at] == lists.positions[c.v]
    && (mesh.uvs.Some? ==> c.vt.Some? && c.vt.value < |lists.uvs| && at < |mesh.uvs.value| && mesh.uvs.value[at] == lists.uvs[c.vt.value])
    && (mesh.normals.Some? ==>
          c.vn.Some? && c.vn.value < |lists.normals| && at < |mesh.normals.value| && mesh.normals.value[at] == lists.normals[c.vn.value])
  }

  /** An attribute is kept exactly if every corner has it. */
  ghost predicate KeepsShared(corners: seq<Corner>, mesh: Mesh) {
    && (mesh.uvs.Some? <==> forall i :: 0 <= i < |corners| ==> corners[i].vt.Some?)
    && (mesh.normals.Some? <==> forall i :: 0 <= i < |corners| ==> corners[i].vn.Some?)
    && mesh.colors.None? && mesh.joints.None? && mesh.weights.None? && mesh.bones == []
  }

  /** Vertex v is first used by some corner, when exactly the vertices before it have been. */
  ghost predicate UsedInTurn(indices: seq<Word>, v: nat) {
    exists i :: && 0 <= i < |indices| && indices[i] == v && (forall j :: 0 <= j < i ==> indices[j] < v)
                && forall k :: 0 <= k < v ==> k in indices[..i]
  }

  /** Every corner's index leads to its data; corners share one exactly if they are alike; and
      the vertices are numbered as they are first used, without any to spare. */
  ghost predicate Indexed(corners: seq<Corner>, lists: Lists, mesh: Mesh) {
    && |mesh.indices| == |corners|
    && (forall i :: 0 <= i < |corners| ==> Shows(mesh, lists, corners[i], mesh.indices[i]))
    && (forall i, j :: 0 <= i < |corners| && 0 <= j < |corners| ==>
          (mesh.indices[i] == mesh.indices[j] <==> Alike(mesh, corners[i], corners[j])))
    && forall v :: 0 <= v < |mesh.positions| ==> UsedInTurn(mesh.indices, v)
  }

  lemma CornersShow(corners: seq<Corner>, lists: Lists, mesh: Mesh, i: nat)
    requires CornersIn(corners, lists) && MeshOf(corners, lists, mesh) && |Vertices(corners)| <= WORDS && i < |corners|
    ensures Shows(mesh, lists, corners[i], mesh.indices[i])
  {
    CornerDataKept(corners, lists, mesh, i);
    assert CornerIn(corners[i], lists);
    if mesh.uvs.Some? { assert HasUv(corners[i]); }
    if mesh.normals.Some? { assert HasNormal(corners[i]); }
  }

  lemma SharedIff(corners: seq<Corner>, lists: Lists, mesh: Mesh, i: nat, j: nat)
    requires MeshOf(corners, lists, mesh) && |Vertices(corners)| <= WORDS && i < |corners| && j < |corners|
    ensures mesh.indices[i] == mesh.indices[j] <==> Alike(mesh, corners[i], corners[j])
  {
    IndicesTrueIff(corners, lists, mesh);
    FirstUsesExact(corners, CarriedBy(corners), |corners|);
    var keys := Vertices(corners);
    assert keys[mesh.indices[i]] == Key(corners[i], CarriedBy(corners)) && keys[mesh.indices[j]] == Key(corners[j], CarriedBy(corners));
  }

  /** Vertex v is first used by corner i, when vertices [..v] have been. */
  ghost predicate FirstUse(corners: seq<Corner>, mesh: Mesh, keys: seq<Corner>, carried: Carried, i: nat, v: nat) {
    && i < |corners| == |mesh.indices| && v < |keys| && Key(corners[i], carried) == keys[v]
    && FirstUses(corners, carried, i) == keys[..v]
    && (forall a, b :: 0 <= a < b < |keys| ==> keys[a] != keys[b])
    && forall j :: 0 <= j < |corners| ==> mesh.indices[j] < |keys| && keys[mesh.indices[j]] == Key(corners[j], carried)
  }

  lemma UsedLess(corners: seq<Corner>, mesh: Mesh, keys: seq<Corner>, carried: Carried, i: nat, v: nat, j: nat)
    requires FirstUse(corners, mesh, keys, carried, i, v) && j < i
    ensures mesh.indices[j] < v
  {
    FirstUsesExact(corners, carried, i);
    assert Key(corners[j], carried) in keys[..v];
    var m :| 0 <= m < v && keys[..v][m] == Key(corners[j], carried);
    assert keys[mesh.indices[j]] == keys[m];
  }

  lemma UsedEarlier(corners: seq<Corner>, mesh: Mesh, keys: seq<Corner>, carried: Carried, i: nat, v: nat, k: nat)
    requires FirstUse(corners, mesh, keys, carried, i, v) && k < v
    ensures k in mesh.indices[..i]
  {
    FirstUsesExact(corners, carried, i);
    assert keys[..v][k] in FirstUses(corners, carried, i);
    var j :| 0 <= j < i && Key(corners[j], carried) == keys[k];
    assert mesh.indices[j] == k && mesh.indices[..i][j] == k;
  }

  lemma VertexInTurn(corners: seq<Corner>, lists: Lists, mesh: Mesh, v: nat)
    requires MeshOf(corners, lists, mesh) && |Vertices(corners)| <= WORDS && v < |Vertices(corners)|
    ensures UsedInTurn(mesh.indices, v)
  {
    var carried, keys := CarriedBy(corners), Vertices(corners);
    IndicesTrueIff(corners, lists, mesh);
    FirstUsesExact(corners, carried, |corners|);
    var i := InFirstUseOrder(corners, carried, |corners|, v);
    assert FirstUse(corners, mesh, keys, carried, i, v);
    forall j: nat | j < i ensures mesh.indices[j] < v { UsedLess(corners, mesh, keys, carried, i, v, j); }
    forall k: nat | k < v ensures k in mesh.indices[..i] { UsedEarlier(corners, mesh, keys, carried, i, v, k); }
    IndexOfFirst(corners, mesh, keys, carried, i, v);
  }

  lemma IndexOfFirst(corners: seq<Corner>, mesh: Mesh, keys: seq<Corner>, carried: Carried, i: nat, v: nat)
    requires FirstUse(corners, mesh, keys, carried, i, v)
    ensures mesh.indices[i] == v
  {
    assert keys[mesh.indices[i]] == keys[v];
  }

  /** The mesh of a corner list, in its own terms; with 2^32 vertices or more, up to the
      numbers being cut to 32 bits. */
  lemma MeshIsIndexed(corners: seq<Corner>, lists: Lists, mesh: Mesh)
    requires CornersIn(corners, lists) && MeshOf(corners, lists, mesh)
    ensures KeepsShared(corners, mesh) && |mesh.indices| == |corners|
    ensures |mesh.positions| <= 0x1_0000_0000 ==> Indexed(corners, lists, mesh)
  {
    SharedKept(corners, lists, mesh);
    if |mesh.positions| <= 0x1_0000_0000 {
      forall i | 0 <= i < |corners| ensures Shows(mesh, lists, corners[i], mesh.indices[i]) { CornersShow(corners, lists, mesh, i); }
      forall i, j | 0 <= i < |corners| && 0 <= j < |corners|
        ensures mesh.indices[i] == mesh.indices[j] <==> Alike(mesh, corners[i], corners[j])
      {
        SharedIff(corners, lists, mesh, i, j);
      }
      forall v | 0 <= v < |mesh.positions| ensures UsedInTurn(mesh.indices, v) { VertexInTurn(corners, lists, mesh, v); }
    }
  }

  lemma SharedKept(corners: seq<Corner>, lists: Lists, mesh: Mesh)
    requires MeshOf(corners, lists, mesh)
    ensures KeepsShared(corners, mesh)
  {
    assert All(HasUv, corners) <==> forall i :: 0 <= i < |corners| ==> HasUv(corners[i]);
    assert All(HasNormal, corners) <==> forall i :: 0 <= i < |corners| ==> HasNormal(corners[i]);
  }

  /** The mesh is read from the file: its corners are those the lines add, in order. */
  ghost predicate ReadFrom(lines: seq<Line>, tri: Triangulator, mesh: Mesh) {
    exists corners, starts ::
      && InOrder(lines, |lines|, tri, corners, starts) && corners != []
      && KeepsShared(corners, mesh) && |mesh.indices| == |corners|
      && (|mesh.positions| <= 0x1_0000_0000 ==> Indexed(corners, Defined(lines, |lines|), mesh))
  }

  /** From a face of three tokens to the mesh: if the lines before it added c corners, corners
      c, c + 1 and c + 2 of the mesh are its tokens, in this order. */
  lemma FaceShown(lines: seq<Line>, tri: Triangulator, corners: seq<Corner>, starts: seq<nat>, mesh: Mesh, l: nat, j: nat)
    requires InOrder(lines, |lines|, tri, corners, starts) && Indexed(corners, Defined(lines, |lines|), mesh)
    requires l < |lines| && lines[l].Face? && |lines[l].tokens| == 3 && j < 3
    ensures starts[l + 1] == starts[l] + 3 <= |corners|
    ensures StandsFor(lines, l, lines[l].tokens[j], corners[starts[l] + j])
    ensures Shows(mesh, Defined(lines, |lines|), corners[starts[l] + j], mesh.indices[starts[l] + j])
  {
    assert AddsFrom(lines, l, tri, corners, starts[l], starts[l + 1]);
    var added := corners[starts[l]..starts[l + 1]];
    assert IsPolygon(lines, l, lines[l].tokens, added) && added[j] == corners[starts[l] + j];
  }

  /** A longer face: its corners are the triangulator's, in the order it gave them, each shown
      by the mesh. */
  lemma PolygonShown(lines: seq<Line>, tri: Triangulator, corners: seq<Corner>, starts: seq<nat>, mesh: Mesh, l: nat) returns (polygon: seq<Corner>)
    requires InOrder(lines, |lines|, tri, corners, starts) && Indexed(corners, Defined(lines, |lines|), mesh)
    requires l < |lines| && lines[l].Face? && |lines[l].tokens| > 3
    ensures starts[l] <= starts[l + 1] <= |corners| && IsPolygon(lines, l, lines[l].tokens, polygon)
    ensures tri(polygon, Defined(lines, l).positions) == Some(corners[starts[l]..starts[l + 1]])
    ensures forall i :: starts[l] <= i < starts[l + 1] ==> Shows(mesh, Defined(lines, |lines|), corners[i], mesh.indices[i])
  {
    assert AddsFrom(lines, l, tri, corners, starts[l], starts[l + 1]);
    polygon :| IsPolygon(lines, l, lines[l].tokens, polygon)
               && tri(polygon, Defined(lines, l).positions) == Some(corners[starts[l]..starts[l + 1]]);
  }

  /** The whole reader. */
  method ParseObj(lines: seq<Line>, tri: Triangulator) returns (r: Read<Mesh>)
    requires Triangulates(tri) && LinesTyped(lines)
    ensures var corners := Corners(lines, |lines|, tri);
            && (r.Done? <==> corners.Done? && corners.value != [])
            && (r.Failed? ==> r.why == if corners.Failed? then corners.why else NoFaces)
            && (r.Done? ==> MeshOf(corners.value, Defined(lines, |lines|), r.value))
            && (r.Done? ==> (Streams(r.value) <==> |Vertices(corners.value)| < WORDS && |corners.value| < WORDS))
    ensures r.Done? ==> ReadFrom(lines, tri, r.value)
    ensures r.Failed? && r.why != NoFaces ==> exists l :: 0 <= l < |lines| && BadLine(lines, l, tri, r.why)
    ensures r.Failed? && r.why == NoFaces ==> exists starts :: InOrder(lines, |lines|, tri, [], starts)
  {
    var lists, corners := ReadLines(lines, tri);
    if corners.Failed? {
      ghost var l := FirstBadLine(lines, |lines|, tri);
      return Failed(corners.why);
    }
    ghost var starts := CornersInOrder(lines, |lines|, tri);
    CornersInRange(lines, |lines|, tri);
    DefinedTyped(lines, |lines|);
    r := Dedup(corners.value, lists);
    if r.Done? {
      ReaderStreamsIff(corners.value, lists, r.value);
      MeshIsIndexed(corners.value, lists, r.value);
    }
  }
}
