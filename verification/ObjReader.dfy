/** The OBJ reader (`parse_obj` in rodeo-client/src/runtime/mesh.rs): resolving face
    corners against the items defined so far, and merging equal corners into indexed
    vertices. Lines come tokenised; polygons beyond triangles go through a triangulator
    that is a parameter. */
module ObjReader {
  import opened Options
  import opened Finite
  import opened MeshCodec

  /** Position, texture coordinate and normal, by index. */
  datatype Corner = Corner(v: Word, vt: Option<Word>, vn: Option<Word>)

  /** A field of a corner as written: 1-based, or negative counting back, or no number. */
  datatype Field = Index(n: int) | Junk

  /** A corner as written, or what is not of the form v, v/vt, v//vn or v/vt/vn. */
  datatype Token = Token(v: Field, vt: Option<Field>, vn: Option<Field>) | Malformed

  /** Unreadable is a line of numbers with too few or bad ones. */
  datatype Line = Vertex(row: seq<Word>) | Texture(row: seq<Word>) | Normal(row: seq<Word>) | Face(tokens: seq<Token>)
                | Unreadable | Ignored

  datatype Failure = BadNumber | FewCorners | BadCorner | BadIndex | Untriangulable | NoFaces

  datatype Read<+T> = Done(value: T) | Failed(why: Failure) {
    predicate IsFailure() { Failed? }
    function PropagateFailure<U>(): Read<U> requires Failed? { Failed(why) }
    function Extract(): T requires Done? { value }
  }

  /** The items defined so far. */
  datatype Lists = Lists(positions: Rows, uvs: Rows, normals: Rows)

  type Triangulator = (seq<Corner>, Rows) -> Option<seq<Corner>>

  // ------------------------------------------------------------------ one corner

  function Resolve(n: int, count: nat): Read<Word> {
    if n == 0 then Failed(BadIndex) else
      var index := if n > 0 then n - 1 else count + n;
      if index < 0 || index >= count then Failed(BadIndex) else Done(Narrow(index))
  }

  function ResolveField(f: Field, count: nat): Read<Word> {
    if f.Junk? then Failed(BadIndex) else Resolve(f.n, count)
  }

  function ResolveOpt(f: Option<Field>, count: nat): Read<Option<Word>> {
    if f.None? then Done(None) else
      var w :- ResolveField(f.value, count);
      Done(Some(w))
  }

  function ParseCorner(t: Token, lists: Lists): Read<Corner> {
    if t.Malformed? then Failed(BadCorner) else
    var v :- ResolveField(t.v, |lists.positions|);
    var vt :- ResolveOpt(t.vt, |lists.uvs|);
    var vn :- ResolveOpt(t.vn, |lists.normals|);
    Done(Corner(v, vt, vn))
  }

  predicate CornerIn(c: Corner, lists: Lists) {
    && c.v < |lists.positions|
    && (c.vt.Some? ==> c.vt.value < |lists.uvs|)
    && (c.vn.Some? ==> c.vn.value < |lists.normals|)
  }

  /** n, written while count items were defined, names item i. */
  predicate Names(n: int, count: nat, i: int) {
    0 <= i < count && if n > 0 then i == n - 1 else n < 0 && i - count == n
  }

  /** Resolving fails exactly when no item is named. The item it finds is the one named
      while that can be numbered in 32 bits, and never otherwise. */
  lemma ResolveIff(n: int, count: nat)
    ensures Resolve(n, count).Done? <==> exists i :: Names(n, count, i)
    ensures forall i: nat :: Names(n, count, i) ==> Resolve(n, count) == Done(Narrow(i))
    ensures forall i: nat :: Names(n, count, i) ==> (Resolve(n, count).value == i <==> i < WORDS)
  {
    var index := if n > 0 then n - 1 else count + n;
    if Resolve(n, count).Done? { assert Names(n, count, index); }
    forall i: nat | Names(n, count, i) ensures i == index && Resolve(n, count) == Done(Narrow(i)) { }
  }

  // ------------------------------------------------------------------- all lines

  function FaceCorners(tokens: seq<Token>, lists: Lists): (r: Read<seq<Corner>>)
    ensures r.Done? ==> |r.value| == |tokens| && forall i :: 0 <= i < |tokens| ==> ParseCorner(tokens[i], lists) == Done(r.value[i])
  {
    if tokens == [] then Done([]) else
      var before :- FaceCorners(tokens[..|tokens| - 1], lists);
      var last :- ParseCorner(tokens[|tokens| - 1], lists);
      Done(before + [last])
  }

  /** A face's triangles. */
  function Triangles(tokens: seq<Token>, lists: Lists, tri: Triangulator): Read<seq<Corner>> {
    if |tokens| < 3 then Failed(FewCorners) else
      var polygon :- FaceCorners(tokens, lists);
      if |polygon| == 3 then Done(polygon) else
      match tri(polygon, lists.positions)
      case None => Failed(Untriangulable)
      case Some(cut) => Done(cut)
  }

  /** What the triangulator must do: give whole triangles on the polygon's corners. */
  ghost predicate Triangulates(tri: Triangulator) {
    forall polygon, positions :: tri(polygon, positions).Some? ==>
      var cut := tri(polygon, positions).value;
      |cut| % 3 == 0 && forall i :: 0 <= i < |cut| ==> cut[i] in polygon
  }

  /** Everything the first n lines define. */
  function Defined(lines: seq<Line>, n: nat): Lists
    requires n <= |lines|
  {
    if n == 0 then Lists([], [], []) else
      var before := Defined(lines, n - 1);
      match lines[n - 1]
      case Vertex(row) => before.(positions := before.positions + [row])
      case Texture(row) => before.(uvs := before.uvs + [row])
      case Normal(row) => before.(normals := before.normals + [row])
      case _ => before
  }

  /** The triangles line k adds, resolved against the lines before it. */
  function LineTriangles(lines: seq<Line>, k: nat, tri: Triangulator): Read<seq<Corner>>
    requires k < |lines|
  {
    match lines[k]
    case Face(tokens) => Triangles(tokens, Defined(lines, k), tri)
    case Unreadable => Failed(BadNumber)
    case _ => Done([])
  }

  /** The corners of all faces of the first n lines. */
  function Corners(lines: seq<Line>, n: nat, tri: Triangulator): Read<seq<Corner>>
    requires n <= |lines|
  {
    if n == 0 then Done([]) else
      var before :- Corners(lines, n - 1, tri);
      var added :- LineTriangles(lines, n - 1, tri);
      Done(before + added)
  }

  lemma {:induction false} CornersStop(lines: seq<Line>, n: nat, m: nat, tri: Triangulator)
    requires n <= m <= |lines| && Corners(lines, n, tri).Failed?
    ensures Corners(lines, m, tri) == Corners(lines, n, tri)
  {
    if n < m { CornersStop(lines, n, m - 1, tri); }
  }

  ghost predicate CornersIn(corners: seq<Corner>, lists: Lists) {
    forall i :: 0 <= i < |corners| ==> CornerIn(corners[i], lists)
  }

  lemma TrianglesIn(tokens: seq<Token>, lists: Lists, tri: Triangulator)
    requires Triangulates(tri) && Triangles(tokens, lists, tri).Done?
    ensures CornersIn(Triangles(tokens, lists, tri).value, lists)
    ensures |Triangles(tokens, lists, tri).value| % 3 == 0
  {
    var polygon := FaceCorners(tokens, lists).value;
    forall i | 0 <= i < |polygon| ensures CornerIn(polygon[i], lists) {
      assert ParseCorner(tokens[i], lists) == Done(polygon[i]);
    }
  }

  lemma InGrown(corners: seq<Corner>, before: Lists, after: Lists)
    requires CornersIn(corners, before) && |before.positions| <= |after.positions|
    requires |before.uvs| <= |after.uvs| && |before.normals| <= |after.normals|
    ensures CornersIn(corners, after)
  {
    forall i | 0 <= i < |corners| ensures CornerIn(corners[i], after) { assert CornerIn(corners[i], before); }
  }

  /** What a face resolved stays in range: later lines only add. */
  lemma {:induction false} CornersInRange(lines: seq<Line>, n: nat, tri: Triangulator)
    requires n <= |lines| && Triangulates(tri) && Corners(lines, n, tri).Done?
    ensures CornersIn(Corners(lines, n, tri).value, Defined(lines, n))
    ensures |Corners(lines, n, tri).value| % 3 == 0
  {
    if n > 0 {
      CornersInRange(lines, n - 1, tri);
      InGrown(Corners(lines, n - 1, tri).value, Defined(lines, n - 1), Defined(lines, n));
      if lines[n - 1].Face? { TrianglesIn(lines[n - 1].tokens, Defined(lines, n - 1), tri); }
    }
  }

  method ReadLines(lines: seq<Line>, tri: Triangulator) returns (lists: Lists, r: Read<seq<Corner>>)
    ensures r == Corners(lines, |lines|, tri)
    ensures r.Done? ==> lists == Defined(lines, |lines|)
  {
    lists := Lists([], [], []);
    var corners: seq<Corner> := [];
    for n := 0 to |lines|
      invariant lists == Defined(lines, n) && Corners(lines, n, tri) == Done(corners)
    {
      assert corners + [] == corners;
      match lines[n]
      case Vertex(row) => lists := lists.(positions := lists.positions + [row]);
      case Texture(row) => lists := lists.(uvs := lists.uvs + [row]);
      case Normal(row) => lists := lists.(normals := lists.normals + [row]);
      case Face(tokens) =>
        var added := Triangles(tokens, lists, tri);
        if added.Failed? {
          CornersStop(lines, n + 1, |lines|, tri);
          return lists, Failed(added.why);
        }
        corners := corners + added.value;
      case Unreadable =>
        CornersStop(lines, n + 1, |lines|, tri);
        return lists, Failed(BadNumber);
      case Ignored =>
    }
    r := Done(corners);
  }

  // ------------------------------------------------------------------ dedup, meaning

  predicate HasUv(c: Corner) { c.vt.Some? }
  predicate HasNormal(c: Corner) { c.vn.Some? }

  predicate All(has: Corner -> bool, corners: seq<Corner>) {
    forall i :: 0 <= i < |corners| ==> has(corners[i])
  }

  /** Which attributes every corner carries. */
  datatype Carried = Carried(uvs: bool, normals: bool)

  function CarriedBy(corners: seq<Corner>): Carried {
    Carried(All(HasUv, corners), All(HasNormal, corners))
  }

  /** A corner without the attributes that are dropped. */
  function Key(c: Corner, carried: Carried): Corner {
    Corner(c.v, if carried.uvs then c.vt else None, if carried.normals then c.vn else None)
  }

  /** Every key of the first n corners once, in the order of first use. */
  function FirstUses(corners: seq<Corner>, carried: Carried, n: nat): (keys: seq<Corner>)
    requires n <= |corners|
    ensures |keys| <= n
  {
    if n == 0 then [] else
      var before := FirstUses(corners, carried, n - 1);
      var key := Key(corners[n - 1], carried);
      if key in before then before else before + [key]
  }

  /** The vertices of a mesh: one per distinct key. */
  function Vertices(corners: seq<Corner>): seq<Corner> {
    FirstUses(corners, CarriedBy(corners), |corners|)
  }

  lemma {:induction false} FirstUsesExact(corners: seq<Corner>, carried: Carried, n: nat)
    requires n <= |corners|
    ensures NoDuplicates(FirstUses(corners, carried, n))
    ensures forall k :: k in FirstUses(corners, carried, n) <==> exists i :: 0 <= i < n && Key(corners[i], carried) == k
  {
    if n > 0 {
      FirstUsesExact(corners, carried, n - 1);
      var before, now := FirstUses(corners, carried, n - 1), FirstUses(corners, carried, n);
      var key := Key(corners[n - 1], carried);
      forall k ensures k in now <==> exists i :: 0 <= i < n && Key(corners[i], carried) == k {
        if k in before {
          var i :| 0 <= i < n - 1 && Key(corners[i], carried) == k;
        } else if k == key {
          assert Key(corners[n - 1], carried) == k;
        }
        assert k in now <==> k in before || k == key;
      }
    }
  }

  /** Vertex j's key is first used by some corner, and every key used before is a vertex
      before. */
  lemma {:induction false} InFirstUseOrder(corners: seq<Corner>, carried: Carried, n: nat, j: nat) returns (i: nat)
    requires n <= |corners| && j < |FirstUses(corners, carried, n)|
    ensures i < n && Key(corners[i], carried) == FirstUses(corners, carried, n)[j]
    ensures FirstUses(corners, carried, i) == FirstUses(corners, carried, n)[..j]
  {
    if j < |FirstUses(corners, carried, n - 1)| {
      i := InFirstUseOrder(corners, carried, n - 1, j);
      assert FirstUses(corners, carried, n)[..j] == FirstUses(corners, carried, n - 1)[..j];
    } else {
      i := n - 1;
    }
  }

  /** The distinct keys of a corner list. */
  ghost function Keys(corners: seq<Corner>, carried: Carried): (keys: set<Corner>)
    ensures forall k :: k in keys <==> exists i :: 0 <= i < |corners| && Key(corners[i], carried) == k
  {
    set i | 0 <= i < |corners| :: Key(corners[i], carried)
  }

  /** As many vertices as distinct keys. */
  lemma VertexCount(corners: seq<Corner>)
    ensures |Vertices(corners)| == |Keys(corners, CarriedBy(corners))|
  {
    var carried, vertices := CarriedBy(corners), Vertices(corners);
    FirstUsesExact(corners, carried, |corners|);
    ElementCount(vertices);
    forall k ensures k in Elements(vertices) <==> k in Keys(corners, carried) {
      assert k in Elements(vertices) <==> k in vertices;
    }
    assert Elements(vertices) == Keys(corners, carried);
  }

  // --------------------------------------------------------------------- dedup, loop

  /** seen sends each vertex's key to its number, cut to 32 bits. */
  ghost predicate Numbered(seen: map<Corner, Word>, keys: seq<Corner>) {
    && (forall k :: k in seen <==> k in keys)
    && forall j :: 0 <= j < |keys| ==> keys[j] in seen && seen[keys[j]] == Narrow(j)
  }

  function PositionOf(lists: Lists, k: Corner): seq<Word> {
    if k.v < |lists.positions| then lists.positions[k.v] else []
  }

  function UvOf(lists: Lists, k: Corner): seq<Word> {
    if k.vt.Some? && k.vt.value < |lists.uvs| then lists.uvs[k.vt.value] else []
  }

  function NormalOf(lists: Lists, k: Corner): seq<Word> {
    if k.vn.Some? && k.vn.value < |lists.normals| then lists.normals[k.vn.value] else []
  }

  function Positions(lists: Lists): Corner -> seq<Word> { (k: Corner) => PositionOf(lists, k) }
  function Uvs(lists: Lists): Corner -> seq<Word> { (k: Corner) => UvOf(lists, k) }
  function Normals(lists: Lists): Corner -> seq<Word> { (k: Corner) => NormalOf(lists, k) }

  /** Entry j is the data of vertex j. */
  ghost predicate Carries(rows: Rows, of: Corner -> seq<Word>, keys: seq<Corner>) {
    |rows| == |keys| && forall j :: 0 <= j < |keys| ==> rows[j] == of(keys[j])
  }

  /** Corner i points at the vertex of its key, up to the cut to 32 bits. */
  ghost predicate Points(indices: seq<Word>, corners: seq<Corner>, carried: Carried, keys: seq<Corner>) {
    |indices| <= |corners|
    && forall i :: 0 <= i < |indices| ==> PointsAt(indices[i], Key(corners[i], carried), keys)
  }

  ghost predicate PointsAt(index: Word, key: Corner, keys: seq<Corner>) {
    exists j: nat :: j < |keys| && keys[j] == key && index == Narrow(j)
  }

  /** The mesh made of a corner list. */
  ghost predicate MeshOf(corners: seq<Corner>, lists: Lists, mesh: Mesh) {
    var carried, keys := CarriedBy(corners), Vertices(corners);
    && Carries(mesh.positions, Positions(lists), keys)
    && (mesh.uvs.Some? <==> carried.uvs) && (carried.uvs ==> Carries(mesh.uvs.value, Uvs(lists), keys))
    && (mesh.normals.Some? <==> carried.normals)
    && (carried.normals ==> Carries(mesh.normals.value, Normals(lists), keys))
    && |mesh.indices| == |corners| && Points(mesh.indices, corners, carried, keys)
    && mesh.colors.None? && mesh.joints.None? && mesh.weights.None? && mesh.bones == []
  }

  method AllHave(has: Corner -> bool, corners: seq<Corner>) returns (all: bool)
    ensures all <==> All(has, corners)
  {
    for i := 0 to |corners|
      invariant forall k :: 0 <= k < i ==> has(corners[k])
    {
      if !has(corners[i]) { return false; }
    }
    all := true;
  }

  /** The vertices pushed so far. */
  datatype Pushed = Pushed(positions: Rows, uvs: Rows, normals: Rows, seen: map<Corner, Word>)

  ghost predicate PushedOf(lists: Lists, carried: Carried, keys: seq<Corner>, p: Pushed) {
    && Numbered(p.seen, keys)
    && Carries(p.positions, Positions(lists), keys)
    && (carried.uvs ==> Carries(p.uvs, Uvs(lists), keys))
    && (carried.normals ==> Carries(p.normals, Normals(lists), keys))
  }

  lemma CarriesMore(rows: Rows, of: Corner -> seq<Word>, keys: seq<Corner>, key: Corner)
    requires Carries(rows, of, keys)
    ensures Carries(rows + [of(key)], of, keys + [key])
  {
  }

  lemma NumberedMore(seen: map<Corner, Word>, keys: seq<Corner>, key: Corner)
    requires Numbered(seen, keys) && key !in keys
    ensures Numbered(seen[key := Narrow(|keys|)], keys + [key])
  {
    var more := keys + [key];
    forall j | 0 <= j < |more| ensures more[j] in seen[key := Narrow(|keys|)] && seen[key := Narrow(|keys|)][more[j]] == Narrow(j) {
      if j < |keys| { assert more[j] == keys[j] && keys[j] in keys; }
    }
  }

  method Push(lists: Lists, carried: Carried, ghost keys: seq<Corner>, p: Pushed, key: Corner) returns (r: Pushed)
    requires PushedOf(lists, carried, keys, p) && key !in keys && CornerIn(key, lists)
    requires (carried.uvs ==> key.vt.Some?) && (carried.normals ==> key.vn.Some?)
    ensures PushedOf(lists, carried, keys + [key], r)
  {
    CarriesMore(p.positions, Positions(lists), keys, key);
    if carried.uvs { CarriesMore(p.uvs, Uvs(lists), keys, key); }
    if carried.normals { CarriesMore(p.normals, Normals(lists), keys, key); }
    NumberedMore(p.seen, keys, key);
    var positions := p.positions + [lists.positions[key.v]];
    var uvs, normals := p.uvs, p.normals;
    if carried.uvs && key.vt.Some? {
      uvs := uvs + [lists.uvs[key.vt.value]];
    }
    if carried.normals && key.vn.Some? {
      normals := normals + [lists.normals[key.vn.value]];
    }
    r := Pushed(positions, uvs, normals, p.seen[key := Narrow(|positions| - 1)]);
  }

  lemma PointsNext(indices: seq<Word>, corners: seq<Corner>, carried: Carried, keys: seq<Corner>, seen: map<Corner, Word>)
    requires Points(indices, corners, carried, keys) && Numbered(seen, keys)
    requires |indices| < |corners| && Key(corners[|indices|], carried) in keys
    ensures Key(corners[|indices|], carried) in seen
    ensures Points(indices + [seen[Key(corners[|indices|], carried)]], corners, carried, keys)
  {
    var key := Key(corners[|indices|], carried);
    var j: nat :| j < |keys| && keys[j] == key;
    assert PointsAt(seen[key], key, keys);
  }

  /** The first n corners are in. */
  ghost predicate PushedUpTo(corners: seq<Corner>, lists: Lists, carried: Carried, n: nat, pushed: Pushed, indices: seq<Word>)
    requires n <= |corners|
  {
    && PushedOf(lists, carried, FirstUses(corners, carried, n), pushed)
    && |indices| == n && Points(indices, corners, carried, FirstUses(corners, carried, n))
  }

  method PushCorner(corners: seq<Corner>, lists: Lists, carried: Carried, n: nat, pushed0: Pushed, indices0: seq<Word>)
    returns (pushed: Pushed, indices: seq<Word>)
    requires CornersIn(corners, lists) && carried == CarriedBy(corners) && n < |corners|
    requires PushedUpTo(corners, lists, carried, n, pushed0, indices0)
    ensures PushedUpTo(corners, lists, carried, n + 1, pushed, indices)
  {
    var key := Key(corners[n], carried);
    ghost var before, keys := FirstUses(corners, carried, n), FirstUses(corners, carried, n + 1);
    pushed := pushed0;
    if key !in pushed.seen {
      pushed := Push(lists, carried, before, pushed, key);
    }
    PointsNext(indices0, corners, carried, keys, pushed.seen);
    indices := indices0 + [pushed.seen[key]];
  }

  method PushAll(corners: seq<Corner>, lists: Lists, carried: Carried) returns (pushed: Pushed, indices: seq<Word>)
    requires CornersIn(corners, lists) && carried == CarriedBy(corners)
    ensures PushedUpTo(corners, lists, carried, |corners|, pushed, indices)
  {
    pushed, indices := Pushed([], [], [], map[]), [];
    for n := 0 to |corners|
      invariant PushedUpTo(corners, lists, carried, n, pushed, indices)
    {
      pushed, indices := PushCorner(corners, lists, carried, n, pushed, indices);
    }
  }

  method Dedup(corners: seq<Corner>, lists: Lists) returns (r: Read<Mesh>)
    requires CornersIn(corners, lists)
    ensures r.Done? <==> corners != []
    ensures r.Failed? ==> r.why == NoFaces
    ensures r.Done? ==> MeshOf(corners, lists, r.value)
  {
    if corners == [] { return Failed(NoFaces); }
    var allUvs := AllHave(HasUv, corners);
    var allNormals := AllHave(HasNormal, corners);
    var pushed, indices := PushAll(corners, lists, Carried(allUvs, allNormals));
    r := Done(Mesh(pushed.positions, if allNormals then Some(pushed.normals) else None,
                   if allUvs then Some(pushed.uvs) else None, None, None, None, indices, []));
  }

  // ------------------------------------------------------------------ dedup, promise

  /** Every corner's index is that of its own key's vertex exactly while the vertices can
      be numbered in 32 bits. */
  lemma IndicesTrueIff(corners: seq<Corner>, lists: Lists, mesh: Mesh)
    requires MeshOf(corners, lists, mesh)
    ensures |Vertices(corners)| <= WORDS <==>
            forall i :: 0 <= i < |corners| ==>
              mesh.indices[i] < |Vertices(corners)| && Vertices(corners)[mesh.indices[i]] == Key(corners[i], CarriedBy(corners))
  {
    var carried, keys := CarriedBy(corners), Vertices(corners);
    FirstUsesExact(corners, carried, |corners|);
    forall i | 0 <= i < |corners| && |keys| <= WORDS
      ensures mesh.indices[i] < |keys| && keys[mesh.indices[i]] == Key(corners[i], carried)
    {
      assert PointsAt(mesh.indices[i], Key(corners[i], carried), keys);
      var j: nat :| j < |keys| && keys[j] == Key(corners[i], carried) && mesh.indices[i] == Narrow(j);
    }
    if |keys| > WORDS {
      var i := InFirstUseOrder(corners, carried, |corners|, WORDS);
      assert PointsAt(mesh.indices[i], Key(corners[i], carried), keys);
      var j: nat :| j < |keys| && keys[j] == Key(corners[i], carried) && mesh.indices[i] == Narrow(j);
      assert j == WORDS && keys[mesh.indices[i]] != keys[WORDS];
    }
  }

  /** Indexing agrees with the raw corner list: what corner i finds at its index is what
      it named, in every attribute the mesh kept; and an attribute is kept exactly when
      every corner named one. */
  lemma CornerDataKept(corners: seq<Corner>, lists: Lists, mesh: Mesh, i: nat)
    requires CornersIn(corners, lists) && MeshOf(corners, lists, mesh)
    requires |Vertices(corners)| <= WORDS && i < |corners|
    ensures mesh.indices[i] < |mesh.positions| == |Vertices(corners)|
    ensures mesh.positions[mesh.indices[i]] == lists.positions[corners[i].v]
    ensures mesh.uvs.Some? <==> All(HasUv, corners)
    ensures mesh.uvs.Some? ==> |mesh.uvs.value| == |mesh.positions| && mesh.uvs.value[mesh.indices[i]] == lists.uvs[corners[i].vt.value]
    ensures mesh.normals.Some? <==> All(HasNormal, corners)
    ensures mesh.normals.Some? ==> |mesh.normals.value| == |mesh.positions| && mesh.normals.value[mesh.indices[i]] == lists.normals[corners[i].vn.value]
  {
    IndicesTrueIff(corners, lists, mesh);
    assert CornerIn(corners[i], lists);
  }

  /** Corner c is token j of the face on line l, resolved against what was defined by then. */
  predicate WrittenAt(lines: seq<Line>, l: nat, j: nat, c: Corner) {
    l < |lines| && lines[l].Face? && j < |lines[l].tokens| && ParseCorner(lines[l].tokens[j], Defined(lines, l)) == Done(c)
  }

  lemma TriangleWritten(lines: seq<Line>, l: nat, tri: Triangulator, i: nat) returns (j: nat)
    requires l < |lines| && lines[l].Face? && Triangulates(tri) && Triangles(lines[l].tokens, Defined(lines, l), tri).Done?
    requires i < |Triangles(lines[l].tokens, Defined(lines, l), tri).value|
    ensures WrittenAt(lines, l, j, Triangles(lines[l].tokens, Defined(lines, l), tri).value[i])
  {
    var polygon := FaceCorners(lines[l].tokens, Defined(lines, l)).value;
    var c := Triangles(lines[l].tokens, Defined(lines, l), tri).value[i];
    assert c in polygon;
    j :| 0 <= j < |polygon| && polygon[j] == c;
  }

  /** Every corner of a file comes from some token of some face. */
  lemma {:induction false} CornerWritten(lines: seq<Line>, n: nat, tri: Triangulator, i: nat) returns (l: nat, j: nat)
    requires n <= |lines| && Triangulates(tri) && Corners(lines, n, tri).Done? && i < |Corners(lines, n, tri).value|
    ensures l < n && WrittenAt(lines, l, j, Corners(lines, n, tri).value[i])
  {
    var before := Corners(lines, n - 1, tri).value;
    if i < |before| {
      l, j := CornerWritten(lines, n - 1, tri, i);
    } else {
      l := n - 1;
      j := TriangleWritten(lines, l, tri, i - |before|);
    }
  }

  lemma {:induction false} DefinedGrows(lines: seq<Line>, l: nat, n: nat)
    requires l <= n <= |lines|
    ensures Defined(lines, l).positions <= Defined(lines, n).positions
    ensures Defined(lines, l).uvs <= Defined(lines, n).uvs && Defined(lines, l).normals <= Defined(lines, n).normals
  {
    if l < n { DefinedGrows(lines, l, n - 1); }
  }

  /** row is what f, written after rows, names, its number cut to 32 bits. */
  ghost predicate RowNamed(rows: Rows, f: Field, row: seq<Word>) {
    f.Index? && exists item: nat :: Names(f.n, |rows|, item) && row == rows[Narrow(item)]
  }

  lemma ResolvedRow(rows: Rows, more: Rows, f: Field, w: Word)
    requires ResolveField(f, |rows|) == Done(w) && rows <= more
    ensures w < |rows| && RowNamed(rows, f, more[w])
  {
    ResolveIff(f.n, |rows|);
    var item :| Names(f.n, |rows|, item);
    assert more[..|rows|] == rows;
  }

  /** Below 2^32 items it is the row named. */
  lemma RowNamedTrue(rows: Rows, f: Field, row: seq<Word>)
    requires RowNamed(rows, f, row) && |rows| <= WORDS
    ensures exists item: nat :: Names(f.n, |rows|, item) && row == rows[item]
  {
    var item: nat :| Names(f.n, |rows|, item) && row == rows[Narrow(item)];
    assert Narrow(item) == item;
  }

  /** From the file to the mesh: what a corner of the mesh shows is the data its token
      named when it was written, in every attribute that is kept. */
  lemma TokenDataKept(lines: seq<Line>, tri: Triangulator, mesh: Mesh, i: nat) returns (l: nat, j: nat)
    requires Triangulates(tri) && Corners(lines, |lines|, tri).Done? && i < |Corners(lines, |lines|, tri).value|
    requires MeshOf(Corners(lines, |lines|, tri).value, Defined(lines, |lines|), mesh)
    requires |Vertices(Corners(lines, |lines|, tri).value)| <= WORDS
    ensures WrittenAt(lines, l, j, Corners(lines, |lines|, tri).value[i]) && mesh.indices[i] < |mesh.positions|
    ensures TokenShown(lines[l].tokens[j], Defined(lines, l), mesh, mesh.indices[i])
  {
    var corners, lists := Corners(lines, |lines|, tri).value, Defined(lines, |lines|);
    CornersInRange(lines, |lines|, tri);
    l, j := CornerWritten(lines, |lines|, tri, i);
    CornerDataKept(corners, lists, mesh, i);
    DefinedGrows(lines, l, |lines|);
    CornerShown(lines[l].tokens[j], Defined(lines, l), lists, corners[i], mesh, mesh.indices[i]);
  }

  /** Vertex number at of the mesh shows what the token names. */
  ghost predicate TokenShown(token: Token, known: Lists, mesh: Mesh, at: nat) {
    && token.Token? && at < |mesh.positions| && RowNamed(known.positions, token.v, mesh.positions[at])
    && (mesh.uvs.Some? ==>
          token.vt.Some? && at < |mesh.uvs.value| && RowNamed(known.uvs, token.vt.value, mesh.uvs.value[at]))
    && (mesh.normals.Some? ==>
          token.vn.Some? && at < |mesh.normals.value| && RowNamed(known.normals, token.vn.value, mesh.normals.value[at]))
  }

  lemma CornerShown(token: Token, known: Lists, lists: Lists, c: Corner, mesh: Mesh, at: nat)
    requires ParseCorner(token, known) == Done(c) && CornerIn(c, lists)
    requires known.positions <= lists.positions && known.uvs <= lists.uvs && known.normals <= lists.normals
    requires at < |mesh.positions| && mesh.positions[at] == lists.positions[c.v]
    requires mesh.uvs.Some? ==> c.vt.Some? && at < |mesh.uvs.value| && mesh.uvs.value[at] == lists.uvs[c.vt.value]
    requires mesh.normals.Some? ==> c.vn.Some? && at < |mesh.normals.value| && mesh.normals.value[at] == lists.normals[c.vn.value]
    ensures TokenShown(token, known, mesh, at)
  {
    ResolvedRow(known.positions, lists.positions, token.v, c.v);
    if c.vt.Some? { ResolvedRow(known.uvs, lists.uvs, token.vt.value, c.vt.value); }
    if c.vn.Some? { ResolvedRow(known.normals, lists.normals, token.vn.value, c.vn.value); }
  }

  predicate ListsTyped(lists: Lists) {
    && RowsShaped(lists.positions, |lists.positions|, 3)
    && RowsShaped(lists.uvs, |lists.uvs|, 2)
    && RowsShaped(lists.normals, |lists.normals|, 3)
  }

  lemma KeysInRange(corners: seq<Corner>, lists: Lists, j: nat)
    requires CornersIn(corners, lists) && j < |Vertices(corners)|
    ensures CornerIn(Vertices(corners)[j], lists)
    ensures CarriedBy(corners).uvs ==> Vertices(corners)[j].vt.Some?
    ensures CarriedBy(corners).normals ==> Vertices(corners)[j].vn.Some?
  {
    var i := InFirstUseOrder(corners, CarriedBy(corners), |corners|, j);
    assert CornerIn(corners[i], lists);
  }

  lemma MeshShaped(corners: seq<Corner>, lists: Lists, mesh: Mesh)
    requires CornersIn(corners, lists) && ListsTyped(lists) && MeshOf(corners, lists, mesh)
    ensures AttributesShaped(mesh)
  {
    forall j | 0 <= j < |Vertices(corners)|
      ensures |mesh.positions[j]| == 3
      ensures mesh.uvs.Some? ==> |mesh.uvs.value[j]| == 2
      ensures mesh.normals.Some? ==> |mesh.normals.value[j]| == 3
    {
      KeysInRange(corners, lists, j);
    }
  }

  /** A mesh read from OBJ goes through the blob unchanged exactly when its counts fit. */
  lemma ReaderStreamsIff(corners: seq<Corner>, lists: Lists, mesh: Mesh)
    requires CornersIn(corners, lists) && ListsTyped(lists) && MeshOf(corners, lists, mesh) && |corners| % 3 == 0
    ensures Streams(mesh) <==> |Vertices(corners)| < WORDS && |corners| < WORDS
  {
    MeshShaped(corners, lists, mesh);
    if |Vertices(corners)| < WORDS { IndicesTrueIff(corners, lists, mesh); }
    StreamsIff(mesh);
  }

  predicate LinesTyped(lines: seq<Line>) {
    forall n :: 0 <= n < |lines| ==>
      match lines[n]
      case Vertex(row) => |row| == 3
      case Texture(row) => |row| == 2
      case Normal(row) => |row| == 3
      case _ => true
  }

  lemma {:induction false} DefinedTyped(lines: seq<Line>, n: nat)
    requires n <= |lines| && LinesTyped(lines)
    ensures ListsTyped(Defined(lines, n))
  {
    if n > 0 { DefinedTyped(lines, n - 1); }
  }
}
