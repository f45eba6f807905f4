/** The glTF reader, told by the file: where every vertex and corner of the mesh comes from,
    when there is a mesh, and what is to blame when there is none. */
module GltfParts {
  import opened Options
  import opened MeshCodec
  import opened GltfReader
  import JointOrder

  // ------------------------------------------------------- lists one after the other

  /** How many entries the first n lists have. */
  ghost function Total<T>(lists: seq<seq<T>>, n: nat): nat
    requires n <= |lists|
  {
    if n == 0 then 0 else Total(lists, n - 1) + |lists[n - 1]|
  }

  /** whole is the lists, one after the other. */
  ghost predicate Stacked<T(!new)>(lists: seq<seq<T>>, whole: seq<T>) {
    && |whole| == Total(lists, |lists|)
    && forall i, v :: 0 <= i < |lists| && 0 <= v < |lists[i]| ==> Behind(whole, Total(lists, i), v, lists[i][v])
  }

  /** Behind start, position v holds x. */
  predicate Behind<T(==)>(whole: seq<T>, start: nat, v: nat, x: T) {
    start + v < |whole| && whole[start + v] == x
  }

  lemma {:induction false} Located<T>(lists: seq<seq<T>>, n: nat, x: nat) returns (i: nat, v: nat)
    requires n <= |lists| && x < Total(lists, n)
    ensures i < n && v < |lists[i]| && x == Total(lists, i) + v
  {
    if x < Total(lists, n - 1) {
      i, v := Located(lists, n - 1, x);
    } else {
      i, v := n - 1, x - Total(lists, n - 1);
    }
  }

  lemma StackedUnique<T(!new)>(lists: seq<seq<T>>, a: seq<T>, b: seq<T>)
    requires Stacked(lists, a) && Stacked(lists, b)
    ensures a == b
  {
    forall x | 0 <= x < |a| ensures a[x] == b[x] {
      var i, v := Located(lists, |lists|, x);
      assert Behind(a, Total(lists, i), v, lists[i][v]) && Behind(b, Total(lists, i), v, lists[i][v]);
    }
  }

  lemma {:induction false} FlatTotal<T>(f: Primitive -> seq<T>, prims: seq<Primitive>, lists: seq<seq<T>>, n: nat)
    requires n <= |prims| == |lists| && forall i :: 0 <= i < |prims| ==> lists[i] == f(prims[i])
    ensures |Flat(f, prims, n)| == Total(lists, n)
  {
    if n > 0 {
      FlatTotal(f, prims, lists, n - 1);
      assert lists[n - 1] == f(prims[n - 1]);
    }
  }

  lemma FlatStacked<T(!new)>(f: Primitive -> seq<T>, prims: seq<Primitive>, lists: seq<seq<T>>)
    requires |prims| == |lists| && forall i :: 0 <= i < |prims| ==> lists[i] == f(prims[i])
    ensures Stacked(lists, All(f, prims))
  {
    FlatTotal(f, prims, lists, |prims|);
    forall i, v | 0 <= i < |lists| && 0 <= v < |lists[i]|
      ensures Behind(All(f, prims), Total(lists, i), v, lists[i][v])
    {
      FlatTotal(f, prims, lists, i);
      FlatAt(f, prims, |prims|, i, v);
    }
  }

  // --------------------------------------------------------------------- vertices

  /** rows is what all primitives have of an attribute, one after the other. */
  ghost predicate Collected<T(!new)>(own: Primitive -> Option<seq<T>>, prims: seq<Primitive>, rows: seq<T>) {
    exists lists :: |lists| == |prims| && (forall i :: 0 <= i < |prims| ==> own(prims[i]) == Some(lists[i])) && Stacked(lists, rows)
  }

  /** carries and f are the two halves of own. */
  ghost predicate Halves<T>(own: Primitive -> Option<seq<T>>, carries: Primitive -> bool, f: Primitive -> seq<T>, prims: seq<Primitive>) {
    forall i :: 0 <= i < |prims| ==> (carries(prims[i]) <==> own(prims[i]).Some?) && (carries(prims[i]) ==> own(prims[i]) == Some(f(prims[i])))
  }

  lemma CollectedIff<T(!new)>(own: Primitive -> Option<seq<T>>, carries: Primitive -> bool, f: Primitive -> seq<T>,
    prims: seq<Primitive>, rows: seq<T>)
    requires Halves(own, carries, f, prims)
    ensures Collected(own, prims, rows) <==> AllCarry(carries, prims, |prims|) && rows == All(f, prims)
  {
    if AllCarry(carries, prims, |prims|) {
      var all := seq(|prims|, i requires 0 <= i < |prims| => f(prims[i]));
      FlatStacked(f, prims, all);
      if rows == All(f, prims) { assert Collected(own, prims, rows); }
    }
    if Collected(own, prims, rows) {
      var lists :| |lists| == |prims| && (forall i :: 0 <= i < |prims| ==> own(prims[i]) == Some(lists[i])) && Stacked(lists, rows);
      forall i | 0 <= i < |prims| ensures carries(prims[i]) && lists[i] == f(prims[i]) {
        assert own(prims[i]) == Some(lists[i]);
      }
      FlatStacked(f, prims, lists);
      StackedUnique(lists, rows, All(f, prims));
    }
  }

  function OwnPositions(): Primitive -> Option<Rows> { (p: Primitive) => Some(p.positions) }
  function OwnNormals(): Primitive -> Option<Rows> { (p: Primitive) => p.normals }
  function OwnUvs(): Primitive -> Option<Rows> { (p: Primitive) => p.uvs }
  function OwnColors(): Primitive -> Option<Rows> { (p: Primitive) => p.colors }

  /** Joints and weights count together, and on a node with a skin. */
  function OwnJoints(): Primitive -> Option<seq<seq<nat>>> {
    (p: Primitive) => if p.weights.Some? && p.skinned then p.joints else None
  }
  function OwnWeights(): Primitive -> Option<Rows> {
    (p: Primitive) => if p.joints.Some? && p.skinned then p.weights else None
  }

  /** An attribute of the mesh: what all primitives have of it, if all have it and it covers
      all vertices. */
  ghost predicate KeptShown(own: Primitive -> Option<Rows>, prims: seq<Primitive>, vertices: nat, kept: Option<Rows>) {
    forall rows :: kept == Some(rows) <==> Collected(own, prims, rows) && |rows| == vertices
  }

  ghost predicate GatheredShown<T(!new)>(own: Primitive -> Option<seq<T>>, prims: seq<Primitive>, got: Option<seq<T>>) {
    forall rows :: got == Some(rows) <==> Collected(own, prims, rows)
  }

  lemma KeptMeans(own: Primitive -> Option<Rows>, carries: Primitive -> bool, f: Primitive -> Rows, prims: seq<Primitive>)
    requires Halves(own, carries, f, prims)
    ensures KeptShown(own, prims, |All(Positions, prims)|, Kept(carries, f, prims))
  {
    KeptIff(carries, f, prims);
    forall rows ensures Kept(carries, f, prims) == Some(rows) <==> Collected(own, prims, rows) && |rows| == |All(Positions, prims)| {
      CollectedIff(own, carries, f, prims, rows);
    }
  }

  lemma GatheredMeans<T(!new)>(own: Primitive -> Option<seq<T>>, carries: Primitive -> bool, f: Primitive -> seq<T>, prims: seq<Primitive>)
    requires Halves(own, carries, f, prims)
    ensures GatheredShown(own, prims, Gathered(carries, f, prims, |prims|))
  {
    GatheredIff(carries, f, prims, |prims|);
    forall rows ensures Gathered(carries, f, prims, |prims|) == Some(rows) <==> Collected(own, prims, rows) {
      CollectedIff(own, carries, f, prims, rows);
    }
  }

  // ---------------------------------------------------------------------- corners

  /** How many vertices the first n primitives have. */
  ghost function Vertices(prims: seq<Primitive>, n: nat): nat
    requires n <= |prims|
  {
    if n == 0 then 0 else Vertices(prims, n - 1) + |prims[n - 1].positions|
  }

  /** How many corners a primitive has: without indices, one per vertex. */
  ghost function Corners(p: Primitive): nat {
    if p.indices.Some? then |p.indices.value| else |p.positions| % 0x1_0000_0000
  }

  /** Which of its vertices a primitive's corner k is. */
  ghost function Corner(p: Primitive, k: nat): nat
    requires k < Corners(p)
  {
    if p.indices.Some? then p.indices.value[k] else k
  }

  /** indices are every primitive's corners, counted on from the vertices before it, in 32
      bits. */
  ghost predicate CornersShown(prims: seq<Primitive>, indices: seq<Word>) {
    exists lists: seq<seq<Word>> ::
      && |lists| == |prims| && Stacked(lists, indices)
      && forall i :: 0 <= i < |prims| ==> CornerList(prims, i, lists[i])
  }

  ghost predicate CornerList(prims: seq<Primitive>, i: nat, list: seq<Word>)
    requires i < |prims|
  {
    |list| == Corners(prims[i])
    && forall k :: 0 <= k < |list| ==> list[k] == (Vertices(prims, i) % 0x1_0000_0000 + Corner(prims[i], k)) % 0x1_0000_0000
  }

  lemma {:induction false} BaseIsVertices(prims: seq<Primitive>, n: nat)
    requires n <= |prims|
    ensures Base(prims, n) == Vertices(prims, n)
  {
    if n > 0 { BaseIsVertices(prims, n - 1); }
  }

  lemma IndicesAre(p: Primitive)
    ensures |Indices(p)| == Corners(p) && forall k :: 0 <= k < |Indices(p)| ==> Indices(p)[k] == Corner(p, k)
  {
    NarrowIs(|p.positions|);
  }

  lemma RebaseIs(base: nat, i: Word)
    ensures Rebase(base, i) == (base % 0x1_0000_0000 + i) % 0x1_0000_0000
  {
    NarrowIs(base);
    NarrowIs(Narrow(base) + i);
  }

  lemma PartIsList(prims: seq<Primitive>, i: nat)
    requires i < |prims|
    ensures CornerList(prims, i, Part(prims, i))
  {
    BaseIsVertices(prims, i);
    IndicesAre(prims[i]);
    forall k | 0 <= k < |Part(prims, i)|
      ensures Part(prims, i)[k] == (Vertices(prims, i) % 0x1_0000_0000 + Corner(prims[i], k)) % 0x1_0000_0000
    {
      RebaseIs(Base(prims, i), Indices(prims[i])[k]);
    }
  }

  lemma {:induction false} JoinedTotal(part: nat -> seq<Word>, lists: seq<seq<Word>>, n: nat)
    requires n <= |lists| && forall i: nat :: i < |lists| ==> lists[i] == part(i)
    ensures |Joined(part, n)| == Total(lists, n)
  {
    if n > 0 { JoinedTotal(part, lists, n - 1); }
  }

  lemma JoinedStacked(part: nat -> seq<Word>, lists: seq<seq<Word>>)
    requires forall i: nat :: i < |lists| ==> lists[i] == part(i)
    ensures Stacked(lists, Joined(part, |lists|))
  {
    JoinedTotal(part, lists, |lists|);
    forall i, v | 0 <= i < |lists| && 0 <= v < |lists[i]|
      ensures Behind(Joined(part, |lists|), Total(lists, i), v, lists[i][v])
    {
      JoinedTotal(part, lists, i);
      assert lists[i] == part(i);
      JoinedEntry(part, |lists|, i, v, Total(lists, i), lists[i][v]);
    }
  }

  lemma JoinedEntry(part: nat -> seq<Word>, n: nat, i: nat, v: nat, start: nat, x: Word)
    requires i < n && v < |part(i)| && x == part(i)[v] && start == |Joined(part, i)|
    ensures Behind(Joined(part, n), start, v, x)
  {
    JoinedAt(part, n, i, v);
  }

  lemma CornersMean(prims: seq<Primitive>)
    ensures CornersShown(prims, AllIndices(prims))
  {
    var lists := seq(|prims|, i requires 0 <= i < |prims| => Part(prims, i));
    forall i: nat | i < |lists| ensures lists[i] == Parts(prims)(i) && CornerList(prims, i, lists[i]) {
      PartIsList(prims, i);
    }
    JoinedStacked(Parts(prims), lists);
  }

  // ------------------------------------------------------------------- the result

  /** m is the primitives, put together. */
  ghost predicate MergedShown(prims: seq<Primitive>, m: Merged) {
    && Collected(OwnPositions(), prims, m.positions) && CornersShown(prims, m.indices)
    && KeptShown(OwnNormals(), prims, |m.positions|, m.normals)
    && KeptShown(OwnUvs(), prims, |m.positions|, m.uvs)
    && KeptShown(OwnColors(), prims, |m.positions|, m.colors)
    && GatheredShown(OwnJoints(), prims, m.joints) && GatheredShown(OwnWeights(), prims, m.weights)
  }

  function Always(): Primitive -> bool { (p: Primitive) => true }

  lemma PositionsMean(prims: seq<Primitive>)
    ensures Collected(OwnPositions(), prims, All(Positions, prims))
  {
    CollectedIff(OwnPositions(), Always(), Positions, prims, All(Positions, prims));
  }

  lemma OptionalMean(prims: seq<Primitive>)
    ensures KeptShown(OwnNormals(), prims, |All(Positions, prims)|, Kept(HasNormals, Normals, prims))
    ensures KeptShown(OwnUvs(), prims, |All(Positions, prims)|, Kept(HasUvs, Uvs, prims))
    ensures KeptShown(OwnColors(), prims, |All(Positions, prims)|, Kept(HasColors, Colors, prims))
  {
    KeptMeans(OwnNormals(), HasNormals, Normals, prims);
    KeptMeans(OwnUvs(), HasUvs, Uvs, prims);
    KeptMeans(OwnColors(), HasColors, Colors, prims);
  }

  lemma WeightedMean(prims: seq<Primitive>)
    ensures GatheredShown(OwnJoints(), prims, Gathered(Weighted, Joints, prims, |prims|))
    ensures GatheredShown(OwnWeights(), prims, Gathered(Weighted, Weights, prims, |prims|))
  {
    GatheredMeans(OwnJoints(), Weighted, Joints, prims);
    GatheredMeans(OwnWeights(), Weighted, Weights, prims);
  }

  lemma MergedMeans(prims: seq<Primitive>)
    ensures MergedShown(prims, MergedOf(prims))
  {
    PositionsMean(prims);
    CornersMean(prims);
    OptionalMean(prims);
    WeightedMean(prims);
  }

  lemma KeptSame(own: Primitive -> Option<Rows>, prims: seq<Primitive>, vertices: nat, a: Option<Rows>, b: Option<Rows>)
    requires KeptShown(own, prims, vertices, a) && KeptShown(own, prims, vertices, b)
    ensures a == b
  {
    if a.Some? { assert a == Some(a.value); }
    if b.Some? { assert b == Some(b.value); }
  }

  lemma GatheredSame<T(!new)>(own: Primitive -> Option<seq<T>>, prims: seq<Primitive>, a: Option<seq<T>>, b: Option<seq<T>>)
    requires GatheredShown(own, prims, a) && GatheredShown(own, prims, b)
    ensures a == b
  {
    if a.Some? { assert a == Some(a.value); }
    if b.Some? { assert b == Some(b.value); }
  }

  lemma CornersSame(prims: seq<Primitive>, a: seq<Word>, b: seq<Word>)
    requires CornersShown(prims, a) && CornersShown(prims, b)
    ensures a == b
  {
    var p: seq<seq<Word>> :| |p| == |prims| && Stacked(p, a) && forall i :: 0 <= i < |prims| ==> CornerList(prims, i, p[i]);
    var q: seq<seq<Word>> :| |q| == |prims| && Stacked(q, b) && forall i :: 0 <= i < |prims| ==> CornerList(prims, i, q[i]);
    forall i | 0 <= i < |prims| ensures p[i] == q[i] {
      assert CornerList(prims, i, p[i]) && CornerList(prims, i, q[i]);
    }
    assert p == q;
    StackedUnique(p, a, b);
  }

  lemma PositionsSame(prims: seq<Primitive>, rows: Rows)
    requires Collected(OwnPositions(), prims, rows)
    ensures rows == All(Positions, prims)
  {
    CollectedIff(OwnPositions(), Always(), Positions, prims, rows);
  }

  /** The primitives are put together in one way. */
  lemma MergedIff(prims: seq<Primitive>, m: Merged)
    ensures MergedShown(prims, m) <==> m == MergedOf(prims)
  {
    var o := MergedOf(prims);
    MergedMeans(prims);
    if MergedShown(prims, m) {
      PositionsSame(prims, m.positions);
      CornersSame(prims, m.indices, o.indices);
      KeptSame(OwnNormals(), prims, |m.positions|, m.normals, o.normals);
      KeptSame(OwnUvs(), prims, |m.positions|, m.uvs, o.uvs);
      KeptSame(OwnColors(), prims, |m.positions|, m.colors, o.colors);
      GatheredSame(OwnJoints(), prims, m.joints, o.joints);
      GatheredSame(OwnWeights(), prims, m.weights, o.weights);
    }
  }

  /** The mesh, told from its primitives and skin. */
  ghost predicate MeshShown(prims: seq<Primitive>, skin: Option<Skin>, mesh: Mesh) {
    exists m: Merged ::
      && MergedShown(prims, m)
      && mesh.positions == m.positions && mesh.indices == m.indices
      && mesh.normals == m.normals && mesh.uvs == m.uvs && mesh.colors == m.colors
      && (match skin
          case None => mesh.bones == [] && mesh.joints.None? && mesh.weights.None?
          case Some(s) => SkinnedShown(m, s, mesh))
  }

  // ---------------------------------------------------------- whether there is one

  /** Triangles with positions, a multiple of three corners, and each a vertex. */
  ghost predicate Fine(p: Primitive) {
    p.triangles && p.positioned && Corners(p) % 3 == 0 && forall k :: 0 <= k < Corners(p) ==> Corner(p, k) < |p.positions|
  }

  lemma FineIff(p: Primitive)
    ensures Fine(p) <==> PrimitiveOk(p)
    ensures !Fine(p) ==> Refusal(p) == if !p.triangles then UnsupportedMode else if !p.positioned then NoPosition
                                       else if Corners(p) % 3 != 0 then IndexCountNotTriples else PrimitiveIndexOutOfRange
  {
    IndicesAre(p);
    if Fine(p) {
      forall k | 0 <= k < |Indices(p)| ensures Indices(p)[k] < |p.positions| { assert Corner(p, k) < |p.positions|; }
    }
    if PrimitiveOk(p) {
      forall k | 0 <= k < Corners(p) ensures Corner(p, k) < |p.positions| { assert Indices(p)[k] == Corner(p, k); }
    }
  }

  /** Every weight that is a positive number goes to a joint of the skin. */
  ghost predicate WeightsFine(m: Merged, joints: nat) {
    m.joints.Some? && m.weights.Some? && |m.joints.value| == |m.positions| ==>
      forall v, k | 0 <= v < |m.joints.value| && v < |m.weights.value| && 0 <= k < |m.joints.value[v]| && k < |m.weights.value[v]| ::
        0 < m.weights.value[v][k] <= 0x7F80_0000 ==> m.joints.value[v][k] < joints
  }

  lemma WeightsIff(m: Merged, joints: nat)
    requires m.joints.Some? <==> m.weights.Some?
    ensures WeightsFine(m, joints) <==> (Influenced(m) ==> KnownJoints(m.joints.value, m.weights.value, joints))
  {
    if Influenced(m) && WeightsFine(m, joints) {
      forall v | 0 <= v < Shorter(|m.joints.value|, |m.weights.value|)
        ensures KnownVertex(m.joints.value[v], m.weights.value[v], joints)
      {
      }
    }
    if Influenced(m) && KnownJoints(m.joints.value, m.weights.value, joints) {
      forall v, k | 0 <= v < |m.joints.value| && v < |m.weights.value| && 0 <= k < |m.joints.value[v]| && k < |m.weights.value[v]|
                    && 0 < m.weights.value[v][k] <= 0x7F80_0000
        ensures m.joints.value[v][k] < joints
      {
        assert KnownVertex(m.joints.value[v], m.weights.value[v], joints);
      }
    }
  }

  /** One bind pose per joint, none of them missing, and no ancestors without end. */
  ghost predicate SkinFine(s: Skin) {
    && |s.binds| == |s.nodes| && (forall j :: 0 <= j < |s.binds| ==> s.binds[j].Some?)
    && forall j :: 0 <= j < |s.nodes| ==> !Endless(s, j)
  }

  lemma SkinFineIff(s: Skin)
    ensures SkinFine(s) <==> Bound(s) && !SomeLoop(s)
  {
    forall j | 0 <= j < |s.nodes| ensures Endless(s, j) <==> JointOrder.Loops(s.nodeParents, s.nodes[j]) { EndlessIff(s, j); }
  }

  /** There is a mesh: primitives, all fine, and a skin, if any, whose bones and weights are. */
  ghost predicate Readable(prims: seq<Primitive>, skin: Option<Skin>) {
    && prims != [] && (forall i :: 0 <= i < |prims| ==> Fine(prims[i]))
    && (skin.Some? ==> SkinFine(skin.value) && forall m :: MergedShown(prims, m) ==> WeightsFine(m, |skin.value.nodes|))
  }

  /** What is to blame when there is none: the first primitive that is not fine, then the
      skin, then a weight. */
  ghost predicate Blamed(prims: seq<Primitive>, skin: Option<Skin>, why: Failure) {
    if prims == [] then why == NoPrimitives
    else if exists i :: 0 <= i < |prims| && !Fine(prims[i]) then
      exists i :: 0 <= i < |prims| && !Fine(prims[i]) && (forall j :: 0 <= j < i ==> Fine(prims[j]))
                  && why == (if !prims[i].triangles then UnsupportedMode else if !prims[i].positioned then NoPosition
                             else if Corners(prims[i]) % 3 != 0 then IndexCountNotTriples else PrimitiveIndexOutOfRange)
    else skin.Some? && if !SkinFine(skin.value) then SkinBlamed(skin.value, why) else why == UnknownJoint
  }

  lemma AllFineIff(prims: seq<Primitive>)
    ensures forall i :: 0 <= i < |prims| ==> (Fine(prims[i]) <==> PrimitiveOk(prims[i]))
  {
    forall i | 0 <= i < |prims| ensures Fine(prims[i]) <==> PrimitiveOk(prims[i]) { FineIff(prims[i]); }
  }

  lemma PrimitiveBlamed(prims: seq<Primitive>, skin: Option<Skin>, why: Failure)
    requires if prims == [] then why == NoPrimitives else FirstRefused(prims, why)
    ensures Blamed(prims, skin, why)
  {
    if prims != [] {
      AllFineIff(prims);
      var k :| 0 <= k < |prims| && Accepted(PrimitiveOk, prims, k) && !PrimitiveOk(prims[k]) && why == Refusal(prims[k]);
      AcceptedIff(PrimitiveOk, prims, k);
      FineIff(prims[k]);
    }
  }

  lemma SkinReadableIff(prims: seq<Primitive>, s: Skin)
    requires MergedOf(prims).joints.Some? <==> MergedOf(prims).weights.Some?
    ensures SkinReadable(MergedOf(prims), s) <==> SkinFine(s) && forall m :: MergedShown(prims, m) ==> WeightsFine(m, |s.nodes|)
  {
    SkinFineIff(s);
    MergedMeans(prims);
    WeightsIff(MergedOf(prims), |s.nodes|);
    forall m | MergedShown(prims, m) ensures m == MergedOf(prims) { MergedIff(prims, m); }
  }

  /** The mesh of merged primitives and, with one, a skin. */
  method ReadParts(prims: seq<Primitive>, skin: Option<Skin>) returns (r: Read<Mesh>)
    requires forall k :: 0 <= k < |prims| ==> PrimitiveTyped(prims[k])
    requires skin.Some? ==> SkinTyped(skin.value)
    ensures r.Done? <==>
              && prims != [] && (forall k :: 0 <= k < |prims| ==> PrimitiveOk(prims[k]))
              && (skin.Some? ==> SkinReadable(MergedOf(prims), skin.value))
    ensures r.Done? ==> ReadOf(MergedOf(prims), skin, r.value)
    ensures r.Done? <==> Readable(prims, skin)
    ensures r.Done? ==> MeshShown(prims, skin, r.value)
    ensures r.Failed? ==> Blamed(prims, skin, r.why)
  {
    AllFineIff(prims);
    var m := Merge(prims);
    if m.Failed? {
      PrimitiveBlamed(prims, skin, m.why);
      return Failed(m.why);
    }
    MergedMeans(prims);
    if skin.None? {
      return Done(Mesh(m.value.positions, m.value.normals, m.value.uvs, m.value.colors, None, None, m.value.indices, []));
    }
    MergedFourWide(prims, m.value);
    SkinReadableIff(prims, skin.value);
    r := ReadSkinned(m.value, skin.value);
    SkinFineIff(skin.value);
  }

  /** A file that can be read and whose mesh is lost in the blob. */
  ghost predicate Lossy(prims: seq<Primitive>, skin: Option<Skin>) {
    && prims != [] && (forall k :: 0 <= k < |prims| ==> PrimitiveTyped(prims[k]) && PrimitiveOk(prims[k]))
    && (skin.Some? ==> SkinTyped(skin.value) && SkinReadable(MergedOf(prims), skin.value))
    && forall mesh :: ReadOf(MergedOf(prims), skin, mesh) ==> !Streams(mesh)
  }

  lemma ShortLossy()
    ensures Lossy([SHORT], Some(ONE_JOINT))
  {
    ShortReadable();
    forall mesh | ReadOf(MergedOf([SHORT]), Some(ONE_JOINT), mesh) ensures !Streams(mesh) { ShortRefused(mesh); }
  }

  method ReadLossy(prims: seq<Primitive>, skin: Option<Skin>) returns (r: Read<Mesh>)
    requires Lossy(prims, skin)
    ensures r.Done? && !Streams(r.value)
  {
    r := ReadParts(prims, skin);
  }

  /** The reader accepts it, and its own blob is refused. */
  method ShortWeights() returns (r: Read<Mesh>)
    ensures r.Done? && !Streams(r.value)
  {
    ShortLossy();
    r := ReadLossy([SHORT], Some(ONE_JOINT));
  }
}
