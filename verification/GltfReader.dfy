/** Merging the primitives of a glTF scene and its skin into one mesh
    (`read_gltf_parts` in rodeo-client/src/runtime/mesh.rs). Positions and normals are
    taken as the reader pushes them, after any baking of node transforms. */
module GltfReader {
  import opened Options
  import opened MeshCodec
  import BoneNames
  import JointOrder

  datatype Primitive = Primitive(
    positions: Rows,
    normals: Option<Rows>,
    uvs: Option<Rows>,
    colors: Option<Rows>,
    joints: Option<seq<seq<nat>>>,
    weights: Option<Rows>,
    indices: Option<seq<Word>>,
    skinned: bool,
    triangles: bool,
    positioned: bool)

  datatype Failure = NoPrimitives | UnsupportedMode | NoPosition | IndexCountNotTriples | PrimitiveIndexOutOfRange
                   | BindCount | SingularBind | AncestryCycle | HierarchyCycle | UnknownJoint

  datatype Read<+T> = Done(value: T) | Failed(why: Failure)

  // ------------------------------------------------------------ merging primitives

  /** f of the first n primitives, one after the other. */
  function Flat<T>(f: Primitive -> seq<T>, prims: seq<Primitive>, n: nat): seq<T>
    requires n <= |prims|
  {
    if n == 0 then [] else Flat(f, prims, n - 1) + f(prims[n - 1])
  }

  function All<T>(f: Primitive -> seq<T>, prims: seq<Primitive>): seq<T> {
    Flat(f, prims, |prims|)
  }

  function Positions(p: Primitive): Rows { p.positions }
  function Normals(p: Primitive): Rows { if p.normals.Some? then p.normals.value else [] }
  function Uvs(p: Primitive): Rows { if p.uvs.Some? then p.uvs.value else [] }
  function Colors(p: Primitive): Rows { if p.colors.Some? then p.colors.value else [] }
  function Joints(p: Primitive): seq<seq<nat>> { if Weighted(p) then p.joints.value else [] }
  function Weights(p: Primitive): Rows { if Weighted(p) then p.weights.value else [] }

  predicate Weighted(p: Primitive) {
    p.joints.Some? && p.weights.Some? && p.skinned
  }

  /** The primitive's own indices; without any, its vertices in order. */
  function Indices(p: Primitive): seq<Word> {
    if p.indices.Some? then p.indices.value
    else UpTo(Narrow(|p.positions|))
  }

  function UpTo(n: nat): (r: seq<Word>)
    requires n <= WORDS
    ensures |r| == n && forall i :: 0 <= i < n ==> r[i] == i
  {
    if n == 0 then [] else UpTo(n - 1) + [n - 1]
  }

  /** `base + i` in 32 bits. */
  function Rebase(base: nat, i: Word): Word {
    Narrow(Narrow(base) + i)
  }

  function Moved(base: nat, indices: seq<Word>): (r: seq<Word>)
    ensures |r| == |indices| && forall k :: 0 <= k < |r| ==> r[k] == Rebase(base, indices[k])
  {
    seq(|indices|, k requires 0 <= k < |indices| => Rebase(base, indices[k]))
  }

  /** Where primitive n's vertices start. */
  function Base(prims: seq<Primitive>, n: nat): nat
    requires n <= |prims|
  {
    |Flat(Positions, prims, n)|
  }

  /** Primitive k's indices, rebased. */
  function Part(prims: seq<Primitive>, k: nat): seq<Word> {
    if k < |prims| then Moved(Base(prims, k), Indices(prims[k])) else []
  }

  /** The first n parts, one after the other. */
  function Joined(part: nat -> seq<Word>, n: nat): seq<Word> {
    if n == 0 then [] else Joined(part, n - 1) + part(n - 1)
  }

  function Parts(prims: seq<Primitive>): nat -> seq<Word> {
    (k: nat) => Part(prims, k)
  }

  /** The rebased indices of the first n primitives. */
  function Indexed(prims: seq<Primitive>, n: nat): seq<Word> {
    Joined(Parts(prims), n)
  }

  function AllIndices(prims: seq<Primitive>): seq<Word> {
    Indexed(prims, |prims|)
  }

  predicate IndicesOk(p: Primitive) {
    |Indices(p)| % 3 == 0 && AllBelow(Indices(p), |p.positions|)
  }

  /** Triangles, with positions, and indices in range. */
  predicate PrimitiveOk(p: Primitive) {
    p.triangles && p.positioned && IndicesOk(p)
  }

  predicate AllBelow(indices: seq<Word>, n: nat) {
    forall k :: 0 <= k < |indices| ==> indices[k] < n
  }

  /** The first n primitives all carry the attribute. */
  predicate AllCarry(carries: Primitive -> bool, prims: seq<Primitive>, n: nat)
    requires n <= |prims|
  {
    forall k :: 0 <= k < n ==> carries(prims[k])
  }

  /** An attribute after n primitives: given up for good at the first without it. */
  function Gathered<T>(carries: Primitive -> bool, f: Primitive -> seq<T>, prims: seq<Primitive>, n: nat): Option<seq<T>>
    requires n <= |prims|
  {
    if n == 0 then Some([]) else Gather(Gathered(carries, f, prims, n - 1), carries(prims[n - 1]), f(prims[n - 1]))
  }

  function Gather<T>(got: Option<seq<T>>, has: bool, more: seq<T>): Option<seq<T>> {
    if got.Some? && has then Some(got.value + more) else None
  }

  lemma {:induction false} GatheredIff<T>(carries: Primitive -> bool, f: Primitive -> seq<T>, prims: seq<Primitive>, n: nat)
    requires n <= |prims|
    ensures Gathered(carries, f, prims, n) == if AllCarry(carries, prims, n) then Some(Flat(f, prims, n)) else None
  {
    if n > 0 { GatheredIff(carries, f, prims, n - 1); }
  }

  /** What covers all vertices is kept. */
  function Covering(got: Option<Rows>, vertices: nat): Option<Rows> {
    if got.Some? && |got.value| == vertices then got else None
  }

  function Kept(carries: Primitive -> bool, f: Primitive -> Rows, prims: seq<Primitive>): Option<Rows> {
    Covering(Gathered(carries, f, prims, |prims|), |All(Positions, prims)|)
  }

  /** An attribute is kept exactly when every primitive carries it and it covers all
      vertices. */
  lemma KeptIff(carries: Primitive -> bool, f: Primitive -> Rows, prims: seq<Primitive>)
    ensures Kept(carries, f, prims) ==
            if AllCarry(carries, prims, |prims|) && |All(f, prims)| == |All(Positions, prims)|
            then Some(All(f, prims)) else None
  {
    GatheredIff(carries, f, prims, |prims|);
  }

  predicate HasNormals(p: Primitive) { p.normals.Some? }
  predicate HasUvs(p: Primitive) { p.uvs.Some? }
  predicate HasColors(p: Primitive) { p.colors.Some? }

  datatype Merged = Merged(positions: Rows, indices: seq<Word>, normals: Option<Rows>, uvs: Option<Rows>,
    colors: Option<Rows>, joints: Option<seq<seq<nat>>>, weights: Option<Rows>)

  /** The first n primitives, put together. */
  ghost predicate Merging(prims: seq<Primitive>, n: nat, m: Merged)
    requires n <= |prims|
  {
    && m.positions == Flat(Positions, prims, n)
    && m.indices == Indexed(prims, n)
    && m.normals == Gathered(HasNormals, Normals, prims, n)
    && m.uvs == Gathered(HasUvs, Uvs, prims, n)
    && m.colors == Gathered(HasColors, Colors, prims, n)
    && m.joints == Gathered(Weighted, Joints, prims, n)
    && m.weights == Gathered(Weighted, Weights, prims, n)
  }

  /** What merging comes to. */
  ghost function MergedOf(prims: seq<Primitive>): Merged {
    Merged(All(Positions, prims), AllIndices(prims), Kept(HasNormals, Normals, prims), Kept(HasUvs, Uvs, prims),
           Kept(HasColors, Colors, prims), Gathered(Weighted, Joints, prims, |prims|), Gathered(Weighted, Weights, prims, |prims|))
  }

  /** Why a primitive is refused: the count is looked at before any index. */
  function IndexRefusal(p: Primitive): Failure {
    if |Indices(p)| % 3 != 0 then IndexCountNotTriples else PrimitiveIndexOutOfRange
  }

  function Refusal(p: Primitive): Failure {
    if !p.triangles then UnsupportedMode else if !p.positioned then NoPosition else IndexRefusal(p)
  }

  method MergeIndices(positions: nat, p: Primitive, indices0: seq<Word>) returns (r: Read<seq<Word>>)
    ensures r.Done? <==> IndicesOk(p)
    ensures r.Failed? ==> r.why == IndexRefusal(p)
    ensures r.Done? ==> r.value == indices0 + Moved(positions, Indices(p))
  {
    var own := Indices(p);
    if |own| % 3 != 0 { return Failed(IndexCountNotTriples); }
    var indices := indices0;
    for k := 0 to |own|
      invariant indices == indices0 + Moved(positions, own)[..k]
      invariant forall i :: 0 <= i < k ==> own[i] < |p.positions|
    {
      if own[k] >= |p.positions| { return Failed(PrimitiveIndexOutOfRange); }
      indices := indices + [Rebase(positions, own[k])];
    }
    assert Moved(positions, own)[..|own|] == Moved(positions, own);
    r := Done(indices);
  }

  method MergeOne(prims: seq<Primitive>, n: nat, m: Merged) returns (r: Read<Merged>)
    requires n < |prims| && Merging(prims, n, m)
    ensures r.Done? <==> PrimitiveOk(prims[n])
    ensures r.Failed? ==> r.why == Refusal(prims[n])
    ensures r.Done? ==> Merging(prims, n + 1, r.value)
  {
    var p := prims[n];
    if !p.triangles { return Failed(UnsupportedMode); }
    if !p.positioned { return Failed(NoPosition); }
    var indices := MergeIndices(|m.positions|, p, m.indices);
    if indices.Failed? { return Failed(indices.why); }
    r := Done(Merged(m.positions + p.positions, indices.value,
                     Gather(m.normals, p.normals.Some?, Normals(p)),
                     Gather(m.uvs, p.uvs.Some?, Uvs(p)),
                     Gather(m.colors, p.colors.Some?, Colors(p)),
                     Gather(m.joints, Weighted(p), Joints(p)),
                     Gather(m.weights, Weighted(p), Weights(p))));
  }

  /** The loop has accepted the first n primitives. */
  ghost predicate Accepted(ok: Primitive -> bool, prims: seq<Primitive>, n: nat)
    requires n <= |prims|
  {
    n == 0 || (Accepted(ok, prims, n - 1) && ok(prims[n - 1]))
  }

  lemma {:induction false} AcceptedIff(ok: Primitive -> bool, prims: seq<Primitive>, n: nat)
    requires n <= |prims|
    ensures Accepted(ok, prims, n) <==> forall k :: 0 <= k < n ==> ok(prims[k])
  {
    if n > 0 { AcceptedIff(ok, prims, n - 1); }
  }

  lemma {:induction false} AcceptedBefore(ok: Primitive -> bool, prims: seq<Primitive>, n: nat, m: nat)
    requires n <= m <= |prims| && Accepted(ok, prims, m)
    ensures Accepted(ok, prims, n)
  {
    if n < m { AcceptedBefore(ok, prims, n, m - 1); }
  }

  /** The first refused primitive decides. */
  ghost predicate FirstRefused(prims: seq<Primitive>, why: Failure) {
    exists k :: 0 <= k < |prims| && Accepted(PrimitiveOk, prims, k) && !PrimitiveOk(prims[k]) && why == Refusal(prims[k])
  }

  method MergeAll(prims: seq<Primitive>) returns (r: Read<Merged>)
    ensures r.Done? <==> Accepted(PrimitiveOk, prims, |prims|)
    ensures r.Failed? ==> FirstRefused(prims, r.why)
    ensures r.Done? ==> Merging(prims, |prims|, r.value)
  {
    var m := Merged([], [], Some([]), Some([]), Some([]), Some([]), Some([]));
    for n := 0 to |prims|
      invariant Merging(prims, n, m)
      invariant Accepted(PrimitiveOk, prims, n)
    {
      var merged := MergeOne(prims, n, m);
      if merged.Failed? {
        if Accepted(PrimitiveOk, prims, |prims|) { AcceptedBefore(PrimitiveOk, prims, n + 1, |prims|); }
        return Failed(merged.why);
      }
      m := merged.value;
    }
    r := Done(m);
  }

  method Merge(prims: seq<Primitive>) returns (r: Read<Merged>)
    ensures r.Done? <==> prims != [] && (forall k :: 0 <= k < |prims| ==> PrimitiveOk(prims[k]))
    ensures r.Failed? ==> if prims == [] then r.why == NoPrimitives else FirstRefused(prims, r.why)
    ensures r.Done? ==> r.value == MergedOf(prims)
  {
    if prims == [] { return Failed(NoPrimitives); }
    var all := MergeAll(prims);
    AcceptedIff(PrimitiveOk, prims, |prims|);
    if all.Failed? { return Failed(all.why); }
    var m := all.value;
    var vertices := |m.positions|;
    r := Done(m.(normals := Covering(m.normals, vertices), uvs := Covering(m.uvs, vertices), colors := Covering(m.colors, vertices)));
  }

  // ------------------------------------------------- what merging keeps of a corner

  /** Entry v of primitive i lands behind everything of the primitives before. */
  lemma {:induction false} FlatAt<T>(f: Primitive -> seq<T>, prims: seq<Primitive>, n: nat, i: nat, v: nat)
    requires i < n <= |prims| && v < |f(prims[i])|
    ensures |Flat(f, prims, i)| + v < |Flat(f, prims, n)|
    ensures Flat(f, prims, n)[|Flat(f, prims, i)| + v] == f(prims[i])[v]
  {
    if i < n - 1 { FlatAt(f, prims, n - 1, i, v); }
  }

  /** f has one entry per vertex in every primitive. */
  ghost predicate PerVertex<T>(f: Primitive -> seq<T>, prims: seq<Primitive>) {
    forall k :: 0 <= k < |prims| ==> |f(prims[k])| == |Positions(prims[k])|
  }

  lemma {:induction false} PerVertexLength<T>(f: Primitive -> seq<T>, prims: seq<Primitive>, n: nat)
    requires n <= |prims| && PerVertex(f, prims)
    ensures |Flat(f, prims, n)| == Base(prims, n)
  {
    if n > 0 { PerVertexLength(f, prims, n - 1); }
  }

  /** Behind before, whole goes on with value at position k. */
  predicate Follows(before: seq<Word>, whole: seq<Word>, k: nat, value: nat) {
    |before| + k < |whole| && whole[|before| + k] == value
  }

  /** Corner k of primitive i became the index merged. */
  ghost predicate Became(prims: seq<Primitive>, n: nat, i: nat, k: nat, merged: nat)
    requires i <= n <= |prims|
  {
    Follows(Indexed(prims, i), Indexed(prims, n), k, merged)
  }

  lemma {:induction false} JoinedAt(part: nat -> seq<Word>, n: nat, i: nat, k: nat)
    requires i < n && k < |part(i)|
    ensures Follows(Joined(part, i), Joined(part, n), k, part(i)[k])
  {
    if i < n - 1 { JoinedAt(part, n - 1, i, k); }
  }

  lemma {:induction false} JoinedTriples(part: nat -> seq<Word>, n: nat)
    requires forall k: nat :: k < n ==> |part(k)| % 3 == 0
    ensures |Joined(part, n)| % 3 == 0
  {
    if n > 0 { JoinedTriples(part, n - 1); }
  }

  lemma PartAt(prims: seq<Primitive>, i: nat, k: nat)
    requires i < |prims| && k < |Indices(prims[i])|
    ensures k < |Parts(prims)(i)| && Parts(prims)(i)[k] == Rebase(Base(prims, i), Indices(prims[i])[k])
  {
    assert Parts(prims)(i) == Part(prims, i);
  }

  lemma PartJoined(prims: seq<Primitive>, i: nat, k: nat)
    requires i < |prims| && k < |Parts(prims)(i)|
    ensures Became(prims, |prims|, i, k, Parts(prims)(i)[k])
  {
    JoinedAt(Parts(prims), |prims|, i, k);
  }

  lemma CornerMoves(prims: seq<Primitive>, i: nat, k: nat)
    requires i < |prims| && k < |Indices(prims[i])|
    ensures Became(prims, |prims|, i, k, Rebase(Base(prims, i), Indices(prims[i])[k]))
  {
    PartAt(prims, i, k);
    PartJoined(prims, i, k);
  }

  /** A rebased index stays a true sum below 2^32. */
  lemma CornerIndex(prims: seq<Primitive>, i: nat, k: nat) returns (own: nat, merged: nat)
    requires i < |prims| && k < |Indices(prims[i])| && PrimitiveOk(prims[i])
    requires |All(Positions, prims)| <= WORDS
    ensures own == Indices(prims[i])[k] < |Positions(prims[i])|
    ensures merged == Base(prims, i) + own && Became(prims, |prims|, i, k, merged)
  {
    own := Indices(prims[i])[k];
    merged := Base(prims, i) + own;
    CornerMoves(prims, i, k);
    FlatAt(Positions, prims, |prims|, i, own);
  }

  /** Merged entry number merged is primitive i's own entry. */
  ghost predicate SameEntry<T(!new)>(f: Primitive -> seq<T>, prims: seq<Primitive>, i: nat, own: nat, merged: nat)
    requires i < |prims|
  {
    own < |f(prims[i])| && merged < |All(f, prims)| && All(f, prims)[merged] == f(prims[i])[own]
  }

  /** Merging moves no corner: corner k of primitive i still names what the primitive's
      own index named in every attribute f with an entry per vertex, positions first. */
  lemma CornerKept<T(!new)>(f: Primitive -> seq<T>, prims: seq<Primitive>, i: nat, k: nat) returns (own: nat, merged: nat)
    requires i < |prims| && k < |Indices(prims[i])| && PrimitiveOk(prims[i])
    requires PerVertex(f, prims) && |All(Positions, prims)| <= WORDS
    ensures own == Indices(prims[i])[k] && Became(prims, |prims|, i, k, merged)
    ensures SameEntry(f, prims, i, own, merged)
  {
    own, merged := CornerIndex(prims, i, k);
    AttributeKept(f, prims, i, own);
  }

  lemma AttributeKept<T(!new)>(f: Primitive -> seq<T>, prims: seq<Primitive>, i: nat, own: nat)
    requires i < |prims| && own < |Positions(prims[i])| && PerVertex(f, prims)
    ensures SameEntry(f, prims, i, own, Base(prims, i) + own)
  {
    PerVertexLength(f, prims, i);
    FlatAt(f, prims, |prims|, i, own);
  }

  lemma TripleIndices(prims: seq<Primitive>)
    requires forall k :: 0 <= k < |prims| ==> PrimitiveOk(prims[k])
    ensures |AllIndices(prims)| % 3 == 0
  {
    forall k: nat | k < |prims| ensures |Parts(prims)(k)| % 3 == 0 {
      assert PrimitiveOk(prims[k]);
    }
    JoinedTriples(Parts(prims), |prims|);
  }

  lemma {:induction false} JoinedBelow(part: nat -> seq<Word>, n: nat, limit: nat)
    requires forall k: nat :: k < n ==> AllBelow(part(k), limit)
    ensures AllBelow(Joined(part, n), limit)
  {
    if n > 0 { JoinedBelow(part, n - 1, limit); }
  }

  lemma {:induction false} BaseGrows(prims: seq<Primitive>, k: nat, n: nat)
    requires k < n <= |prims|
    ensures Base(prims, k) + |prims[k].positions| <= Base(prims, n)
  {
    if k < n - 1 { BaseGrows(prims, k, n - 1); }
  }

  lemma PartBelow(prims: seq<Primitive>, k: nat)
    requires k < |prims| && PrimitiveOk(prims[k]) && Base(prims, |prims|) <= WORDS
    ensures AllBelow(Part(prims, k), Base(prims, |prims|))
  {
    BaseGrows(prims, k, |prims|);
  }

  lemma IndicesInRange(prims: seq<Primitive>)
    requires forall k :: 0 <= k < |prims| ==> PrimitiveOk(prims[k])
    requires Base(prims, |prims|) <= WORDS
    ensures AllBelow(AllIndices(prims), Base(prims, |prims|))
  {
    forall k: nat | k < |prims| ensures AllBelow(Parts(prims)(k), Base(prims, |prims|)) {
      PartBelow(prims, k);
    }
    JoinedBelow(Parts(prims), |prims|, Base(prims, |prims|));
  }

  // -------------------------------------------------------------------- the skin

  /** A skin as read: its joints' nodes and names, the bind poses its inverse bind matrices
      are the inverses of (none for a singular one), and the scene's node parents. */
  datatype Skin = Skin(nodes: seq<nat>, names: seq<Option<BoneNames.Name>>, binds: seq<Option<seq<Word>>>, nodeParents: seq<Option<nat>>)

  /** Facts of the source's types and of the format's limits. */
  predicate SkinTyped(s: Skin) {
    && |s.names| == |s.nodes| < WORDS
    && (forall j :: 0 <= j < |s.names| && s.names[j].Some? ==> Utf8.Valid(s.names[j].value))
    && (forall j :: 0 <= j < |s.binds| && s.binds[j].Some? ==> |s.binds[j].value| == 12)
  }

  /** One bind pose per joint. */
  predicate Bound(s: Skin) {
    |s.binds| == |s.nodes| && forall j :: 0 <= j < |s.binds| ==> s.binds[j].Some?
  }

  /** joints sends each joint's node to the last joint with that node. */
  ghost predicate JointMap(nodes: seq<nat>, joints: map<nat, nat>) {
    forall x :: (x in joints <==> x in nodes)
      && (x in joints ==> joints[x] < |nodes| && nodes[joints[x]] == x
                          && forall j :: joints[x] < j < |nodes| ==> nodes[j] != x)
  }

  method NodeToJoint(nodes: seq<nat>) returns (joints: map<nat, nat>)
    ensures JointMap(nodes, joints)
  {
    joints := map[];
    for j := 0 to |nodes|
      invariant JointMap(nodes[..j], joints)
    {
      joints := joints[nodes[j] := j];
      assert nodes[..j + 1] == nodes[..j] + [nodes[j]];
    }
    assert nodes[..|nodes|] == nodes;
  }

  /** parent is the joint above joint j's node, if any. */
  ghost predicate ParentFound(s: Skin, joints: map<nat, nat>, j: nat, parent: Option<nat>)
    requires j < |s.nodes|
  {
    if parent.Some? then parent.value < |s.nodes| && JointOrder.NearestJoint(s.nodeParents, joints, s.nodes[j], parent.value)
    else JointOrder.NoJointAbove(s.nodeParents, joints, s.nodes[j])
  }

  ghost predicate ParentJoints(s: Skin, joints: map<nat, nat>, parents: seq<Option<nat>>) {
    |parents| <= |s.nodes| && forall j :: 0 <= j < |parents| ==> ParentFound(s, joints, j, parents[j])
  }

  ghost predicate LoopsAt(s: Skin, joints: map<nat, nat>, j: nat)
    requires j < |s.nodes|
  {
    JointOrder.LoopsWithoutJoint(s.nodeParents, joints, s.nodes[j])
  }

  method FindParent(s: Skin, joints: map<nat, nat>, j: nat) returns (found: JointOrder.Result<Option<nat>>)
    requires j < |s.nodes| && JointMap(s.nodes, joints)
    ensures found.Cycle? <==> LoopsAt(s, joints, j)
    ensures found.Ok? ==> ParentFound(s, joints, j, found.value)
  {
    found := JointOrder.ParentJoint(s.nodeParents, joints, s.nodes[j]);
  }

  ghost predicate JointFails(s: Skin, joints: map<nat, nat>, j: nat)
    requires j < |s.nodes| == |s.binds|
  {
    s.binds[j].None? || LoopsAt(s, joints, j)
  }

  /** The first joint that cannot be read: its bind pose is looked at first. */
  ghost predicate FirstFailing(s: Skin, joints: map<nat, nat>, why: Failure)
    requires |s.nodes| == |s.binds|
  {
    exists j :: 0 <= j < |s.nodes| && JointFails(s, joints, j) && (forall i :: 0 <= i < j ==> !JointFails(s, joints, i))
                && why == if s.binds[j].None? then SingularBind else AncestryCycle
  }

  /** Each joint's bind pose and parent, or the first that cannot be read. */
  method FindParents(s: Skin, joints: map<nat, nat>) returns (r: Read<(seq<seq<Word>>, seq<Option<nat>>)>)
    requires JointMap(s.nodes, joints) && |s.nodes| == |s.binds|
    ensures r.Done? ==> |r.value.0| == |r.value.1| == |s.nodes| && ParentJoints(s, joints, r.value.1)
    ensures r.Done? ==> forall j :: 0 <= j < |s.nodes| ==> s.binds[j] == Some(r.value.0[j]) && !LoopsAt(s, joints, j)
    ensures r.Failed? ==> FirstFailing(s, joints, r.why)
  {
    var cframes: seq<seq<Word>> := [];
    var parents: seq<Option<nat>> := [];
    for j := 0 to |s.nodes|
      invariant |cframes| == |parents| == j && ParentJoints(s, joints, parents)
      invariant forall i :: 0 <= i < j ==> s.binds[i] == Some(cframes[i]) && !LoopsAt(s, joints, i)
    {
      if s.binds[j].None? {
        assert JointFails(s, joints, j);
        return Failed(SingularBind);
      }
      var found := FindParent(s, joints, j);
      if found.Cycle? {
        assert JointFails(s, joints, j);
        return Failed(AncestryCycle);
      }
      cframes := cframes + [s.binds[j].value];
      parents := parents + [found.value];
    }
    r := Done((cframes, parents));
  }

  datatype Skeleton = Skeleton(bones: seq<Bone>, order: seq<nat>, index: seq<nat>)

  /** b's parent in the scene is a. */
  predicate Over(s: Skin, a: nat, b: nat) {
    b < |s.nodeParents| && s.nodeParents[b] == Some(a)
  }

  /** path goes up the scene from joint j's node. */
  ghost predicate Climbs(s: Skin, j: nat, path: seq<nat>)
    requires j < |s.nodes|
  {
    path != [] && path[0] == s.nodes[j] && forall t :: 0 < t < |path| ==> Over(s, path[t], path[t - 1])
  }

  /** ... with no joint behind its start. */
  ghost predicate Upwards(s: Skin, j: nat, path: seq<nat>)
    requires j < |s.nodes|
  {
    Climbs(s, j, path) && forall t :: 0 < t < |path| ==> path[t] !in s.nodes
  }

  /** Joint j's node has ancestors without end. */
  ghost predicate Endless(s: Skin, j: nat)
    requires j < |s.nodes|
  {
    forall n: nat :: ClimbsFor(s, j, n)
  }

  ghost predicate ClimbsFor(s: Skin, j: nat, n: nat)
    requires j < |s.nodes|
  {
    exists path :: Climbs(s, j, path) && |path| == n + 1
  }

  /** ... and no joint is among them. */
  ghost predicate EndlessWithoutJoint(s: Skin, j: nat)
    requires j < |s.nodes|
  {
    forall n: nat :: UpwardsFor(s, j, n)
  }

  ghost predicate UpwardsFor(s: Skin, j: nat, n: nat)
    requires j < |s.nodes|
  {
    exists path :: Upwards(s, j, path) && |path| == n + 1
  }

  ghost predicate Unread(s: Skin, j: nat)
    requires j < |s.nodes| && j < |s.binds|
  {
    s.binds[j].None? || EndlessWithoutJoint(s, j)
  }

  /** Why a skin has no skeleton: its bind poses do not match its joints in number, or the
      first joint is to blame that has none or climbs for ever past no joint, or the joints
      themselves go round. */
  ghost predicate SkinBlamed(s: Skin, why: Failure) {
    if |s.binds| != |s.nodes| then why == BindCount
    else if exists j :: 0 <= j < |s.nodes| && Unread(s, j) then
      exists j :: 0 <= j < |s.nodes| && Unread(s, j) && (forall i :: 0 <= i < j ==> !Unread(s, i))
                  && why == if s.binds[j].None? then SingularBind else AncestryCycle
    else why == HierarchyCycle && exists j :: 0 <= j < |s.nodes| && Endless(s, j)
  }

  /** The joint above joint j: the last one with the first joint's node on the way up, or
      none up to a node without a parent. */
  ghost predicate JointAbove(s: Skin, j: nat, parent: Option<nat>)
    requires j < |s.nodes|
  {
    exists path :: Upwards(s, j, path) && var top := path[|path| - 1];
      if parent.None? then forall a :: !Over(s, a, top)
      else parent.value < |s.nodes| && Over(s, s.nodes[parent.value], top)
           && forall q :: parent.value < q < |s.nodes| ==> s.nodes[q] != s.nodes[parent.value]
  }

  /** Bone i of the skeleton is joint order[i] with its name, bind pose and parent. */
  ghost predicate BoneShown(s: Skin, names: seq<BoneNames.Name>, parents: seq<Option<nat>>, k: Skeleton, i: nat)
    requires i < |k.bones| == |k.order| && |names| == |parents| == |s.binds|
  {
    var j := k.order[i];
    && j < |names| && k.bones[i].name == names[j] && Some(k.bones[i].cframe) == s.binds[j] && !k.bones[i].isVirtual
    && (match k.bones[i].parent
        case None => parents[j].None?
        case Some(p) => p < i && parents[j] == Some(k.order[p]))
  }

  /** The skeleton, told from the skin: every joint gets the first free name after its own
      and the joint above it as parent; the joints come in the order of their turns. */
  ghost predicate SkinShown(s: Skin, k: Skeleton) {
    exists names: seq<BoneNames.Name>, parents: seq<Option<nat>> ::
      && |names| == |parents| == |k.order| == |k.bones| == |s.nodes| == |s.names| == |s.binds|
      && (forall j :: 0 <= j < |names| ==> BoneNames.Picked(s.names, names, j))
      && (forall j :: 0 <= j < |parents| ==> JointAbove(s, j, parents[j]))
      && JointOrder.InTurn(parents, k.order)
      && (forall i :: 0 <= i < |k.bones| ==> BoneShown(s, names, parents, k, i))
  }

  /** The bones of skin s: joint order[i] became bone i. */
  ghost predicate SkeletonOf(s: Skin, joints: map<nat, nat>, k: Skeleton) {
    && |k.bones| == |s.nodes| == |s.names| == |s.binds|
    && JointOrder.Inverts(k.index, k.order) && |k.order| == |s.nodes|
    && (forall i :: 0 <= i < |k.bones| ==> BoneOk(k.bones[i], i))
    && (forall i :: 0 <= i < |k.bones| ==> s.binds[k.order[i]] == Some(k.bones[i].cframe))
    && (forall i :: 0 <= i < |k.bones| ==>
          BoneNames.NamedAfter(k.bones[i].name, BoneNames.BaseName(s.names, k.order[i])))
    && (forall i, j :: 0 <= i < j < |k.bones| ==> k.bones[i].name != k.bones[j].name)
    && (forall i :: 0 <= i < |k.bones| ==> ParentNamed(s, joints, k, i))
  }

  /** Bone i's parent is the bone made of the nearest joint above, or none is above. */
  ghost predicate ParentNamed(s: Skin, joints: map<nat, nat>, k: Skeleton, i: nat)
    requires i < |k.bones| == |s.nodes| && JointOrder.Inverts(k.index, k.order) && |k.order| == |s.nodes|
  {
    if k.bones[i].parent.Some? then
      && k.bones[i].parent.value < i
      && JointOrder.NearestJoint(s.nodeParents, joints, s.nodes[k.order[i]], k.order[k.bones[i].parent.value])
    else JointOrder.NoJointAbove(s.nodeParents, joints, s.nodes[k.order[i]])
  }

  /** What is needed of parents, names and order for the bones to be a skeleton. */
  ghost predicate Prepared(s: Skin, joints: map<nat, nat>, parents: seq<Option<nat>>, names: seq<BoneNames.Name>,
    cframes: seq<seq<Word>>, order: seq<nat>, index: seq<nat>)
  {
    && |parents| == |s.nodes| == |names| == |s.names| == |s.binds| == |cframes| == |order|
    && ParentJoints(s, joints, parents) && JointOrder.Inverts(index, order)
    && BoneNames.Distinct(names)
    && (forall j: nat :: j < |names| ==> BoneNames.Named(s.names, names, j))
    && JointMap(s.nodes, joints) && JointOrder.InTurn(parents, order)
    && (forall j :: 0 <= j < |cframes| ==> |cframes[j]| == 12 && s.binds[j] == Some(cframes[j]))
  }

  /** Bone i is joint order[i], with its parent renumbered. */
  ghost predicate Renumbered(b: Bone, i: nat, parent: Option<nat>, name: BoneNames.Name, cframe: seq<Word>, order: seq<nat>) {
    && b.name == name && b.cframe == cframe && !b.isVirtual
    && (b.parent.Some? <==> parent.Some?)
    && (parent.Some? ==> b.parent.value < i && i <= |order| && order[b.parent.value] == parent.value)
  }

  lemma {:induction false} PathTo(s: Skin, joints: map<nat, nat>, j: nat, k: nat) returns (path: seq<nat>)
    requires JointMap(s.nodes, joints) && j < |s.nodes|
    requires JointOrder.NoJointUpTo(s.nodeParents, joints, s.nodes[j], k)
    ensures Upwards(s, j, path) && |path| == k + 1
    ensures JointOrder.Chain(s.nodeParents, s.nodes[j], k) == Some(path[k])
  {
    if k == 0 {
      path := [s.nodes[j]];
    } else {
      var before := PathTo(s, joints, j, k - 1);
      path := before + [JointOrder.Chain(s.nodeParents, s.nodes[j], k).value];
    }
  }

  lemma {:induction false} ChainClimbs(s: Skin, j: nat, k: nat) returns (path: seq<nat>)
    requires j < |s.nodes| && JointOrder.Chain(s.nodeParents, s.nodes[j], k).Some?
    ensures Climbs(s, j, path) && |path| == k + 1 && JointOrder.Chain(s.nodeParents, s.nodes[j], k) == Some(path[k])
  {
    if k == 0 {
      path := [s.nodes[j]];
    } else {
      var before := ChainClimbs(s, j, k - 1);
      path := before + [JointOrder.Chain(s.nodeParents, s.nodes[j], k).value];
    }
  }

  lemma {:induction false} ClimbedChain(s: Skin, j: nat, path: seq<nat>, k: nat)
    requires j < |s.nodes| && Climbs(s, j, path) && k < |path|
    ensures JointOrder.Chain(s.nodeParents, s.nodes[j], k) == Some(path[k])
  {
    if k > 0 { ClimbedChain(s, j, path, k - 1); }
  }

  lemma EndlessIff(s: Skin, j: nat)
    requires j < |s.nodes|
    ensures Endless(s, j) <==> JointOrder.Loops(s.nodeParents, s.nodes[j])
  {
    if Endless(s, j) {
      forall k: nat ensures JointOrder.Chain(s.nodeParents, s.nodes[j], k).Some? {
        assert ClimbsFor(s, j, k);
        var path :| Climbs(s, j, path) && |path| == k + 1;
        ClimbedChain(s, j, path, k);
      }
    }
    if JointOrder.Loops(s.nodeParents, s.nodes[j]) {
      forall n: nat ensures ClimbsFor(s, j, n) {
        var path := ChainClimbs(s, j, n);
      }
    }
  }

  lemma WithoutJointIff(s: Skin, joints: map<nat, nat>, j: nat)
    requires JointMap(s.nodes, joints) && j < |s.nodes|
    ensures EndlessWithoutJoint(s, j) <==> LoopsAt(s, joints, j)
  {
    if EndlessWithoutJoint(s, j) {
      forall k: nat ensures JointOrder.NoJointUpTo(s.nodeParents, joints, s.nodes[j], k) {
        assert UpwardsFor(s, j, k);
        var path :| Upwards(s, j, path) && |path| == k + 1;
        forall i: nat | 0 < i <= k
          ensures JointOrder.Chain(s.nodeParents, s.nodes[j], i).Some? && JointOrder.Chain(s.nodeParents, s.nodes[j], i).value !in joints
        {
          ClimbedChain(s, j, path, i);
        }
      }
    }
    if LoopsAt(s, joints, j) {
      forall n: nat ensures UpwardsFor(s, j, n) {
        var path := PathTo(s, joints, j, n);
      }
    }
  }

  lemma FailsIff(s: Skin, joints: map<nat, nat>)
    requires JointMap(s.nodes, joints) && |s.nodes| == |s.binds|
    ensures forall j :: 0 <= j < |s.nodes| ==> (Unread(s, j) <==> JointFails(s, joints, j))
  {
    forall j | 0 <= j < |s.nodes| ensures Unread(s, j) <==> JointFails(s, joints, j) {
      WithoutJointIff(s, joints, j);
    }
  }

  lemma FirstIsBlamed(s: Skin, joints: map<nat, nat>, why: Failure)
    requires JointMap(s.nodes, joints) && |s.nodes| == |s.binds| && FirstFailing(s, joints, why)
    ensures SkinBlamed(s, why)
  {
    FailsIff(s, joints);
    var j :| 0 <= j < |s.nodes| && JointFails(s, joints, j) && (forall i :: 0 <= i < j ==> !JointFails(s, joints, i))
             && why == if s.binds[j].None? then SingularBind else AncestryCycle;
    assert Unread(s, j);
  }

  lemma RoundIsBlamed(s: Skin, joints: map<nat, nat>)
    requires JointMap(s.nodes, joints) && |s.nodes| == |s.binds| && SomeLoop(s)
    requires forall j :: 0 <= j < |s.nodes| ==> !JointFails(s, joints, j)
    ensures SkinBlamed(s, HierarchyCycle)
  {
    FailsIff(s, joints);
    var j :| 0 <= j < |s.nodes| && JointOrder.Loops(s.nodeParents, s.nodes[j]);
    EndlessIff(s, j);
  }

  lemma AboveFound(s: Skin, joints: map<nat, nat>, j: nat, parent: Option<nat>)
    requires JointMap(s.nodes, joints) && j < |s.nodes| && ParentFound(s, joints, j, parent)
    ensures JointAbove(s, j, parent)
  {
    var n := s.nodes[j];
    if parent.Some? {
      var k: nat :| JointOrder.NoJointUpTo(s.nodeParents, joints, n, k) && JointOrder.Chain(s.nodeParents, n, k + 1).Some?
        && JointOrder.Chain(s.nodeParents, n, k + 1).value in joints && joints[JointOrder.Chain(s.nodeParents, n, k + 1).value] == parent.value;
      var path := PathTo(s, joints, j, k);
      assert Over(s, JointOrder.Chain(s.nodeParents, n, k + 1).value, path[|path| - 1]);
    } else {
      var k: nat :| JointOrder.NoJointUpTo(s.nodeParents, joints, n, k) && JointOrder.Chain(s.nodeParents, n, k + 1).None?;
      var path := PathTo(s, joints, j, k);
    }
  }

  lemma SkinMade(s: Skin, joints: map<nat, nat>, parents: seq<Option<nat>>, names: seq<BoneNames.Name>,
    cframes: seq<seq<Word>>, order: seq<nat>, index: seq<nat>, bones: seq<Bone>)
    requires Prepared(s, joints, parents, names, cframes, order, index) && |bones| == |order|
    requires forall i :: 0 <= i < |order| ==>
               Renumbered(bones[i], i, parents[order[i]], names[order[i]], cframes[order[i]], order)
    ensures SkinShown(s, Skeleton(bones, order, index))
  {
    var k := Skeleton(bones, order, index);
    forall j | 0 <= j < |parents| ensures JointAbove(s, j, parents[j]) {
      AboveFound(s, joints, j, parents[j]);
    }
    forall j | 0 <= j < |names| ensures BoneNames.Picked(s.names, names, j) {
      assert BoneNames.Named(s.names, names, j);
    }
    forall i | 0 <= i < |bones| ensures BoneShown(s, names, parents, k, i) {
      assert Renumbered(bones[i], i, parents[order[i]], names[order[i]], cframes[order[i]], order);
    }
  }

  lemma NamesApart(names: seq<BoneNames.Name>, order: seq<nat>, index: seq<nat>, bones: seq<Bone>)
    requires JointOrder.Inverts(index, order) && BoneNames.Distinct(names) && |bones| == |order| == |names|
    requires forall i :: 0 <= i < |bones| ==> bones[i].name == names[order[i]]
    ensures forall i, j :: 0 <= i < j < |bones| ==> bones[i].name != bones[j].name
  {
    forall i, j | 0 <= i < j < |bones| ensures bones[i].name != bones[j].name {
      assert order[i] < order[j] || order[j] < order[i];
    }
  }

  lemma SkeletonMade(s: Skin, joints: map<nat, nat>, parents: seq<Option<nat>>, names: seq<BoneNames.Name>,
    cframes: seq<seq<Word>>, order: seq<nat>, index: seq<nat>, bones: seq<Bone>)
    requires Prepared(s, joints, parents, names, cframes, order, index) && |bones| == |order|
    requires forall i :: 0 <= i < |order| ==>
               Renumbered(bones[i], i, parents[order[i]], names[order[i]], cframes[order[i]], order)
    ensures SkeletonOf(s, joints, Skeleton(bones, order, index))
  {
    var k := Skeleton(bones, order, index);
    forall i | 0 <= i < |bones|
      ensures BoneOk(bones[i], i) && ParentNamed(s, joints, k, i) && s.binds[order[i]] == Some(bones[i].cframe)
      ensures BoneNames.NamedAfter(bones[i].name, BoneNames.BaseName(s.names, order[i]))
    {
      assert Renumbered(bones[i], i, parents[order[i]], names[order[i]], cframes[order[i]], order);
      assert ParentFound(s, joints, order[i], parents[order[i]]) && BoneNames.Named(s.names, names, order[i]);
    }
    NamesApart(names, order, index, bones);
  }

  method BuildBones(parents: seq<Option<nat>>, names: seq<BoneNames.Name>, cframes: seq<seq<Word>>, order: seq<nat>, index: seq<nat>)
    returns (bones: seq<Bone>)
    requires |parents| == |names| == |cframes| < WORDS
    requires JointOrder.Closed(parents) && JointOrder.Ordered(parents, order) && JointOrder.Inverts(index, order)
    ensures |bones| == |order|
    ensures forall i :: 0 <= i < |order| ==>
              Renumbered(bones[i], i, parents[order[i]], names[order[i]], cframes[order[i]], order)
  {
    var joined := seq(|names|, j requires 0 <= j < |names| => (names[j], cframes[j]));
    var sorted := JointOrder.Reorder(parents, joined, order, index);
    bones := [];
    for i := 0 to |sorted|
      invariant |bones| == i
      invariant forall k :: 0 <= k < i ==>
                  Renumbered(bones[k], k, parents[order[k]], names[order[k]], cframes[order[k]], order)
    {
      assert JointOrder.Placed(sorted[i], parents, joined, order, i);
      var (parent, (name, cframe)) := sorted[i];
      bones := bones + [Bone(name, if parent.Some? then Some(parent.value) else None, cframe, false)];
    }
  }

  /** parents lists every joint's parent joint. */
  ghost predicate Parented(s: Skin, joints: map<nat, nat>, parents: seq<Option<nat>>) {
    |parents| == |s.nodes| && JointMap(s.nodes, joints) && ParentJoints(s, joints, parents) && JointOrder.Closed(parents)
  }

  /** A parent joint's node is a proper ancestor of the joint's node. */
  lemma ParentOnChain(s: Skin, joints: map<nat, nat>, parents: seq<Option<nat>>, j: nat) returns (k: nat)
    requires Parented(s, joints, parents) && j < |parents| && parents[j].Some?
    ensures JointOrder.Chain(s.nodeParents, s.nodes[j], k + 1) == Some(s.nodes[parents[j].value])
  {
    var n := s.nodes[j];
    assert ParentFound(s, joints, j, parents[j]);
    k :| JointOrder.NoJointUpTo(s.nodeParents, joints, n, k) && JointOrder.Chain(s.nodeParents, n, k + 1).Some?
         && JointOrder.Chain(s.nodeParents, n, k + 1).value in joints
         && joints[JointOrder.Chain(s.nodeParents, n, k + 1).value] == parents[j].value;
  }

  lemma FirstParent(parents: seq<Option<nat>>, j: nat, m: nat)
    requires j < |parents|
    ensures JointOrder.Chain(parents, j, 1 + m) == if parents[j].Some? then JointOrder.Chain(parents, parents[j].value, m) else None
  {
    JointOrder.ChainCompose(parents, j, 1, m);
    assert JointOrder.Chain(parents, j, 0) == Some(j);
    assert JointOrder.Chain(parents, j, 1) == parents[j];
  }

  lemma GoUp(nodeParents: seq<Option<nat>>, a: nat, b: nat, k: nat, m: nat)
    requires JointOrder.Chain(nodeParents, a, k + 1) == Some(b) && JointOrder.Chain(nodeParents, b, m).Some?
    ensures JointOrder.Chain(nodeParents, a, m + 1).Some?
  {
    JointOrder.ChainCompose(nodeParents, a, k + 1, m);
    if JointOrder.Chain(nodeParents, a, m + 1).None? { JointOrder.ChainEnded(nodeParents, a, m + 1, k + 1 + m); }
  }

  /** Joint parents go up at least as far in nodes. */
  lemma {:induction false} NodesGoUp(s: Skin, joints: map<nat, nat>, parents: seq<Option<nat>>, j: nat, m: nat)
    requires Parented(s, joints, parents) && j < |parents| && JointOrder.Chain(parents, j, m).Some?
    ensures JointOrder.Chain(s.nodeParents, s.nodes[j], m).Some?
    decreases m
  {
    if m > 0 {
      FirstParent(parents, j, m - 1);
      var k := ParentOnChain(s, joints, parents, j);
      NodesGoUp(s, joints, parents, parents[j].value, m - 1);
      GoUp(s.nodeParents, s.nodes[j], s.nodes[parents[j].value], k, m - 1);
    }
  }

  /** A joint on a node chain that never ends has a parent joint, itself on one. */
  lemma LoopGoesOn(s: Skin, joints: map<nat, nat>, parents: seq<Option<nat>>, j: nat)
    requires Parented(s, joints, parents) && j < |parents| && JointOrder.Loops(s.nodeParents, s.nodes[j])
    ensures parents[j].Some? && JointOrder.Loops(s.nodeParents, s.nodes[parents[j].value])
  {
    var k := ParentOnChain(s, joints, parents, j);
    forall m: nat ensures JointOrder.Chain(s.nodeParents, s.nodes[parents[j].value], m).Some? {
      JointOrder.ChainCompose(s.nodeParents, s.nodes[j], k + 1, m);
      assert JointOrder.Chain(s.nodeParents, s.nodes[j], k + 1 + m).Some?;
    }
  }

  lemma {:induction false} JointsLoop(s: Skin, joints: map<nat, nat>, parents: seq<Option<nat>>, j: nat, m: nat)
    requires Parented(s, joints, parents) && j < |parents| && JointOrder.Loops(s.nodeParents, s.nodes[j])
    ensures JointOrder.Chain(parents, j, m).Some?
    decreases m
  {
    if m > 0 {
      LoopGoesOn(s, joints, parents, j);
      JointsLoop(s, joints, parents, parents[j].value, m - 1);
      FirstParent(parents, j, m - 1);
    }
  }

  /** A joint's parent joints never end exactly when its node's ancestors never do. */
  lemma LoopsAgree(s: Skin, joints: map<nat, nat>, parents: seq<Option<nat>>, j: nat)
    requires Parented(s, joints, parents) && j < |parents|
    ensures JointOrder.Loops(parents, j) <==> JointOrder.Loops(s.nodeParents, s.nodes[j])
  {
    if JointOrder.Loops(parents, j) {
      forall m: nat ensures JointOrder.Chain(s.nodeParents, s.nodes[j], m).Some? { NodesGoUp(s, joints, parents, j, m); }
    }
    if JointOrder.Loops(s.nodeParents, s.nodes[j]) {
      forall m: nat ensures JointOrder.Chain(parents, j, m).Some? { JointsLoop(s, joints, parents, j, m); }
    }
  }

  /** Some joint's node has ancestors without end. */
  ghost predicate SomeLoop(s: Skin) {
    exists j :: 0 <= j < |s.nodes| && JointOrder.Loops(s.nodeParents, s.nodes[j])
  }

  lemma AncestryLoops(s: Skin, joints: map<nat, nat>, j: nat)
    requires j < |s.nodes| && LoopsAt(s, joints, j)
    ensures JointOrder.Loops(s.nodeParents, s.nodes[j])
  {
    forall k: nat ensures JointOrder.Chain(s.nodeParents, s.nodes[j], k).Some? {
      assert JointOrder.NoJointUpTo(s.nodeParents, joints, s.nodes[j], k);
      assert JointOrder.Chain(s.nodeParents, s.nodes[j], 0) == Some(s.nodes[j]);
    }
  }

  lemma HierarchyLoops(s: Skin, joints: map<nat, nat>, parents: seq<Option<nat>>)
    requires Parented(s, joints, parents)
    ensures (exists j: nat :: j < |parents| && JointOrder.Loops(parents, j)) <==> SomeLoop(s)
  {
    forall j: nat | j < |parents| ensures JointOrder.Loops(parents, j) <==> JointOrder.Loops(s.nodeParents, s.nodes[j]) {
      LoopsAgree(s, joints, parents, j);
    }
  }

  /** The joints named, ordered and renumbered. */
  method BuildSkeleton(s: Skin, ghost joints: map<nat, nat>, cframes: seq<seq<Word>>, parents: seq<Option<nat>>) returns (r: Read<Skeleton>)
    requires SkinTyped(s) && Parented(s, joints, parents) && |cframes| == |s.binds| == |s.nodes|
    requires forall j :: 0 <= j < |s.nodes| ==> s.binds[j] == Some(cframes[j]) && !LoopsAt(s, joints, j)
    ensures r.Done? ==> SkeletonOf(s, joints, r.value) && SkinShown(s, r.value)
    ensures r.Done? <==> !SomeLoop(s)
    ensures r.Failed? ==> r.why == HierarchyCycle && SkinBlamed(s, r.why)
  {
    HierarchyLoops(s, joints, parents);
    var names := BoneNames.NameJoints(s.names);
    var order := JointOrder.OrderJoints(parents);
    if order.Cycle? {
      RoundIsBlamed(s, joints);
      return Failed(HierarchyCycle);
    }
    var index := JointOrder.NewIndex(parents, order.value);
    var bones := BuildBones(parents, names, cframes, order.value, index);
    SkeletonMade(s, joints, parents, names, cframes, order.value, index, bones);
    SkinMade(s, joints, parents, names, cframes, order.value, index, bones);
    r := Done(Skeleton(bones, order.value, index));
  }

  /** The skin's bones; or an error, exactly when the bind poses are too few or too many,
      one is singular, or some joint's node has ancestors without end. */
  method ReadSkin(s: Skin) returns (r: Read<Skeleton>, ghost joints: map<nat, nat>)
    requires SkinTyped(s)
    ensures JointMap(s.nodes, joints)
    ensures r.Done? ==> SkeletonOf(s, joints, r.value) && SkinShown(s, r.value)
    ensures r.Done? <==> Bound(s) && !SomeLoop(s)
    ensures r.Failed? ==> if |s.binds| != |s.nodes| then r.why == BindCount
                          else r.why == HierarchyCycle || FirstFailing(s, joints, r.why)
    ensures r.Failed? && r.why == HierarchyCycle ==> Bound(s) && forall j :: 0 <= j < |s.nodes| ==> !LoopsAt(s, joints, j)
    ensures r.Failed? ==> SkinBlamed(s, r.why)
  {
    var map1 := NodeToJoint(s.nodes);
    joints := map1;
    if |s.binds| != |s.nodes| { return Failed(BindCount), joints; }
    var found := FindParents(s, map1);
    if found.Failed? {
      FailingLoops(s, joints, found.why);
      FirstIsBlamed(s, joints, found.why);
      return Failed(found.why), joints;
    }
    var (cframes, parents) := found.value;
    r := BuildSkeleton(s, joints, cframes, parents);
  }

  lemma FailingLoops(s: Skin, joints: map<nat, nat>, why: Failure)
    requires |s.binds| == |s.nodes| && FirstFailing(s, joints, why)
    ensures why in {SingularBind, AncestryCycle} && (!Bound(s) || SomeLoop(s))
  {
    var j :| 0 <= j < |s.nodes| && JointFails(s, joints, j) && (forall i :: 0 <= i < j ==> !JointFails(s, joints, i))
             && why == if s.binds[j].None? then SingularBind else AncestryCycle;
    if s.binds[j].Some? { AncestryLoops(s, joints, j); }
  }

  // ------------------------------------------------------------- vertex influences

  /** `w > 0.0` on the bits of a single-precision float: neither signed, zero nor NaN. */
  predicate PositiveFloat(w: Word) {
    0 < w <= 0x7F80_0000
  }

  /** One vertex: a slot with weight names its joint's new bone, any other is unused. */
  predicate Influence(joint: nat, weight: Word, index: seq<nat>, slot: Word, kept: Word) {
    if PositiveFloat(weight) then joint < |index| && slot == index[joint] && kept == weight
    else slot == NONE && kept == 0
  }

  predicate VertexInfluences(joints: seq<nat>, weights: seq<Word>, index: seq<nat>, slots: seq<Word>, kept: seq<Word>) {
    |slots| == |kept| == 4 && |joints| == |weights| == 4
    && forall k :: 0 <= k < 4 ==> Influence(joints[k], weights[k], index, slots[k], kept[k])
  }

  predicate FourWide<T>(rows: seq<seq<T>>) {
    forall v :: 0 <= v < |rows| ==> |rows[v]| == 4
  }

  method RemapVertex(joints: seq<nat>, weights: seq<Word>, index: seq<nat>) returns (ok: bool, slots: seq<Word>, kept: seq<Word>)
    requires |joints| == |weights| == 4
    requires |index| < WORDS && forall j :: 0 <= j < |index| ==> index[j] < |index|
    ensures ok ==> VertexInfluences(joints, weights, index, slots, kept)
    ensures ok <==> KnownVertex(joints, weights, |index|)
  {
    slots, kept := [NONE, NONE, NONE, NONE], [0, 0, 0, 0];
    for k := 0 to 4
      invariant |slots| == |kept| == 4
      invariant forall i :: 0 <= i < k ==> Influence(joints[i], weights[i], index, slots[i], kept[i])
      invariant forall i :: k <= i < 4 ==> slots[i] == NONE && kept[i] == 0
    {
      if PositiveFloat(weights[k]) {
        if joints[k] >= |index| { return false, slots, kept; }
        slots := slots[k := index[joints[k]]];
        kept := kept[k := weights[k]];
      }
    }
    ok := true;
  }

  ghost predicate Influences(joints: seq<seq<nat>>, weights: Rows, index: seq<nat>, slots: Rows, kept: Rows) {
    |slots| == |kept| <= |joints| && |slots| <= |weights|
    && forall v :: 0 <= v < |slots| ==> VertexInfluences(joints[v], weights[v], index, slots[v], kept[v])
  }

  /** Every influence with weight names one of the joints. */
  predicate KnownJoints(joints: seq<seq<nat>>, weights: Rows, bones: nat) {
    forall v :: 0 <= v < Shorter(|joints|, |weights|) ==> KnownVertex(joints[v], weights[v], bones)
  }

  predicate KnownVertex(joints: seq<nat>, weights: seq<Word>, bones: nat) {
    forall k :: 0 <= k < Shorter(|joints|, |weights|) && PositiveFloat(weights[k]) ==> joints[k] < bones
  }

  function Shorter(a: nat, b: nat): nat { if a < b then a else b }

  /** Every vertex of the zipped lists: the shorter decides. */
  method RemapInfluences(joints: seq<seq<nat>>, weights: Rows, index: seq<nat>) returns (r: Read<(Rows, Rows)>)
    requires FourWide(joints) && FourWide(weights)
    requires |index| < WORDS && forall j :: 0 <= j < |index| ==> index[j] < |index|
    ensures r.Done? ==> Influences(joints, weights, index, r.value.0, r.value.1)
    ensures r.Done? ==> |r.value.0| == Shorter(|joints|, |weights|)
    ensures r.Done? <==> KnownJoints(joints, weights, |index|)
    ensures r.Failed? ==> r.why == UnknownJoint
  {
    var slots: Rows, kept: Rows := [], [];
    for v := 0 to Shorter(|joints|, |weights|)
      invariant forall u :: 0 <= u < v ==> KnownVertex(joints[u], weights[u], |index|)
      invariant |slots| == v && Influences(joints, weights, index, slots, kept)
    {
      var ok, s, w := RemapVertex(joints[v], weights[v], index);
      if !ok { return Failed(UnknownJoint); }
      slots, kept := slots + [s], kept + [w];
    }
    r := Done((slots, kept));
  }

  /** The influence that named a joint names the bone the joint became. */
  lemma InfluenceNamesSameBone(s: Skin, joints: map<nat, nat>, sk: Skeleton, joint: nat, weight: Word, slot: Word, kept: Word)
    requires SkeletonOf(s, joints, sk) && Influence(joint, weight, sk.index, slot, kept) && PositiveFloat(weight)
    ensures slot < |sk.bones| && sk.order[slot] == joint && s.binds[joint] == Some(sk.bones[slot].cframe)
    ensures BoneNames.NamedAfter(sk.bones[slot].name, BoneNames.BaseName(s.names, joint)) && ParentNamed(s, joints, sk, slot)
  {
  }

  // --------------------------------------------------------------- the whole reader

  predicate PrimitiveTyped(p: Primitive) {
    && RowsShaped(p.positions, |p.positions|, 3)
    && (p.normals.Some? ==> RowsShaped(p.normals.value, |p.normals.value|, 3))
    && (p.uvs.Some? ==> RowsShaped(p.uvs.value, |p.uvs.value|, 2))
    && (p.colors.Some? ==> RowsShaped(p.colors.value, |p.colors.value|, 4))
    && (p.joints.Some? ==> FourWide(p.joints.value))
    && (p.weights.Some? ==> FourWide(p.weights.value))
  }

  lemma {:induction false} FlatWide<T(!new)>(f: Primitive -> seq<seq<T>>, prims: seq<Primitive>, n: nat, width: nat)
    requires n <= |prims|
    requires forall k :: 0 <= k < n ==> forall v :: 0 <= v < |f(prims[k])| ==> |f(prims[k])[v]| == width
    ensures forall v :: 0 <= v < |Flat(f, prims, n)| ==> |Flat(f, prims, n)[v]| == width
  {
    if n > 0 { FlatWide(f, prims, n - 1, width); }
  }

  /** The merged vertices carry influences for the skin. */
  predicate Influenced(m: Merged) {
    m.joints.Some? && m.weights.Some? && |m.joints.value| == |m.positions|
  }

  /** A skin can be read: its bind poses are there, no joint's ancestors go on without end,
      and every influence with weight names a joint. */
  ghost predicate SkinReadable(m: Merged, s: Skin) {
    Bound(s) && !SomeLoop(s) && (Influenced(m) ==> KnownJoints(m.joints.value, m.weights.value, |s.nodes|))
  }

  /** One vertex of the mesh: a slot whose weight is a positive number names the bone its
      joint became, any other is empty. */
  ghost predicate VertexShown(joints: seq<nat>, weights: seq<Word>, order: seq<nat>, slots: seq<Word>, kept: seq<Word>) {
    && |joints| == |weights| == |slots| == |kept| == 4
    && forall k :: 0 <= k < 4 ==>
         if 0 < weights[k] <= 0x7F80_0000 then slots[k] < |order| && order[slots[k]] == joints[k] && kept[k] == weights[k]
         else slots[k] == 0xFFFF_FFFF && kept[k] == 0
  }

  /** The influences of the mesh: none, unless all vertices have joints; else those of every
      vertex that has weights too. */
  ghost predicate InfluencesShown(m: Merged, order: seq<nat>, mesh: Mesh) {
    if m.joints.Some? && m.weights.Some? && |m.joints.value| == |m.positions| then
      && mesh.joints.Some? && mesh.weights.Some? && |mesh.joints.value| == |mesh.weights.value|
      && |mesh.joints.value| == (if |m.joints.value| <= |m.weights.value| then |m.joints.value| else |m.weights.value|)
      && forall v :: 0 <= v < |mesh.joints.value| ==>
           VertexShown(m.joints.value[v], m.weights.value[v], order, mesh.joints.value[v], mesh.weights.value[v])
    else mesh.joints.None? && mesh.weights.None?
  }

  /** The mesh's skeleton and influences, told from the skin. */
  ghost predicate SkinnedShown(m: Merged, s: Skin, mesh: Mesh) {
    exists k: Skeleton :: SkinShown(s, k) && mesh.bones == k.bones && InfluencesShown(m, k.order, mesh)
  }

  lemma InfluencesMean(m: Merged, s: Skin, joints: map<nat, nat>, k: Skeleton, mesh: Mesh)
    requires SkinnedBy(m, s, joints, k, mesh)
    ensures InfluencesShown(m, k.order, mesh)
  {
    if mesh.joints.Some? {
      forall v | 0 <= v < |mesh.joints.value|
        ensures VertexShown(m.joints.value[v], m.weights.value[v], k.order, mesh.joints.value[v], mesh.weights.value[v])
      {
        assert VertexInfluences(m.joints.value[v], m.weights.value[v], k.index, mesh.joints.value[v], mesh.weights.value[v]);
      }
    }
  }

  method ReadSkinned(m: Merged, s: Skin) returns (r: Read<Mesh>)
    requires SkinTyped(s) && (m.joints.Some? <==> m.weights.Some?)
    requires m.joints.Some? ==> FourWide(m.joints.value) && FourWide(m.weights.value)
    ensures r.Done? <==> SkinReadable(m, s)
    ensures r.Done? ==> ReadOf(m, Some(s), r.value)
    ensures r.Failed? ==> (r.why == UnknownJoint <==> Bound(s) && !SomeLoop(s))
    ensures r.Failed? && r.why != UnknownJoint ==> SkinBlamed(s, r.why)
    ensures r.Done? ==> SkinnedShown(m, s, r.value) && SameVertices(m, r.value)
  {
    var k;
    ghost var joints;
    k, joints := ReadSkin(s);
    if k.Failed? { return Failed(k.why); }
    var mesh := Mesh(m.positions, m.normals, m.uvs, m.colors, None, None, m.indices, k.value.bones);
    if m.joints.Some? && |m.joints.value| == |m.positions| {
      var remapped := RemapInfluences(m.joints.value, m.weights.value, k.value.index);
      if remapped.Failed? { return Failed(remapped.why); }
      mesh := mesh.(joints := Some(remapped.value.0), weights := Some(remapped.value.1));
    }
    SkinnedOf(m, s, joints, k.value, mesh);
    InfluencesMean(m, s, joints, k.value, mesh);
    r := Done(mesh);
  }

  lemma MergedFourWide(prims: seq<Primitive>, m: Merged)
    requires m == MergedOf(prims) && forall k :: 0 <= k < |prims| ==> PrimitiveTyped(prims[k])
    ensures m.joints.Some? <==> m.weights.Some?
    ensures m.joints.Some? ==> FourWide(m.joints.value) && FourWide(m.weights.value)
  {
    forall k | 0 <= k < |prims| ensures FourWide(Joints(prims[k])) && FourWide(Weights(prims[k])) {
      assert PrimitiveTyped(prims[k]);
    }
    GatheredIff(Weighted, Joints, prims, |prims|);
    GatheredIff(Weighted, Weights, prims, |prims|);
    FlatWide(Joints, prims, |prims|, 4);
    FlatWide(Weights, prims, |prims|, 4);
  }

  /** mesh is what the reader makes of merged primitives and a skin. */
  ghost predicate ReadOf(m: Merged, skin: Option<Skin>, mesh: Mesh) {
    SameVertices(m, mesh)
    && if skin.None? then mesh.bones == [] && mesh.joints.None? && mesh.weights.None?
       else exists joints, k :: SkinnedBy(m, skin.value, joints, k, mesh)
  }

  ghost predicate SkinnedBy(m: Merged, s: Skin, joints: map<nat, nat>, k: Skeleton, mesh: Mesh) {
    && JointMap(s.nodes, joints) && SkeletonOf(s, joints, k) && mesh.bones == k.bones
    && (m.joints.Some? <==> m.weights.Some?)
    && (mesh.joints.Some? <==> m.joints.Some? && |m.joints.value| == |m.positions|)
    && (mesh.weights.Some? <==> mesh.joints.Some?)
    && (mesh.joints.Some? ==>
          && Influences(m.joints.value, m.weights.value, k.index, mesh.joints.value, mesh.weights.value)
          && JointsOk(mesh.joints.value, |k.bones|)
          && RowsShaped(mesh.joints.value, |mesh.joints.value|, 4)
          && RowsShaped(mesh.weights.value, |mesh.joints.value|, 4)
          && |mesh.joints.value| == Shorter(|m.joints.value|, |m.weights.value|))
  }

  lemma SkinnedOf(m: Merged, s: Skin, joints: map<nat, nat>, k: Skeleton, mesh: Mesh)
    requires SkinnedBy(m, s, joints, k, mesh) && SameVertices(m, mesh)
    ensures ReadOf(m, Some(s), mesh)
  {
  }

  lemma MergedShapes(prims: seq<Primitive>, m: Merged)
    requires m == MergedOf(prims) && forall k :: 0 <= k < |prims| ==> PrimitiveTyped(prims[k])
    ensures RowsShaped(m.positions, |m.positions|, 3) && OptShaped(m.normals, |m.positions|, 3)
    ensures OptShaped(m.uvs, |m.positions|, 2) && OptShaped(m.colors, |m.positions|, 4)
  {
    forall k | 0 <= k < |prims|
      ensures (forall v :: 0 <= v < |Positions(prims[k])| ==> |Positions(prims[k])[v]| == 3)
              && (forall v :: 0 <= v < |Normals(prims[k])| ==> |Normals(prims[k])[v]| == 3)
              && (forall v :: 0 <= v < |Uvs(prims[k])| ==> |Uvs(prims[k])[v]| == 2)
              && (forall v :: 0 <= v < |Colors(prims[k])| ==> |Colors(prims[k])[v]| == 4)
    {
      assert PrimitiveTyped(prims[k]);
    }
    KeptIff(HasNormals, Normals, prims);
    KeptIff(HasUvs, Uvs, prims);
    KeptIff(HasColors, Colors, prims);
    FlatWide(Positions, prims, |prims|, 3);
    FlatWide(Normals, prims, |prims|, 3);
    FlatWide(Uvs, prims, |prims|, 2);
    FlatWide(Colors, prims, |prims|, 4);
  }

  ghost predicate WeightsCover(m: Merged) {
    m.joints.Some? && m.weights.Some? && |m.weights.value| >= |m.joints.value|
  }

  /** The half of well-formedness a skin decides, and what is left of the other. */
  ghost predicate SkinOk(m: Merged, mesh: Mesh) {
    && |mesh.bones| < WORDS && (forall i :: 0 <= i < |mesh.bones| ==> BoneOk(mesh.bones[i], i))
    && (mesh.joints.Some? <==> mesh.weights.Some?)
    && (mesh.joints.Some? ==>
          && m.joints.Some? && m.weights.Some?
          && JointsOk(mesh.joints.value, |mesh.bones|) && |m.joints.value| == |m.positions|
          && RowsShaped(mesh.joints.value, Shorter(|m.joints.value|, |m.weights.value|), 4)
          && RowsShaped(mesh.weights.value, Shorter(|m.joints.value|, |m.weights.value|), 4))
  }

  ghost predicate SameVertices(m: Merged, mesh: Mesh) {
    && mesh.positions == m.positions && mesh.indices == m.indices
    && mesh.normals == m.normals && mesh.uvs == m.uvs && mesh.colors == m.colors
  }

  ghost predicate MergedOk(m: Merged) {
    && RowsShaped(m.positions, |m.positions|, 3) && OptShaped(m.normals, |m.positions|, 3)
    && OptShaped(m.uvs, |m.positions|, 2) && OptShaped(m.colors, |m.positions|, 4)
    && |m.indices| % 3 == 0
    && (|m.positions| <= WORDS ==> AllBelow(m.indices, |m.positions|))
  }

  lemma MergedFacts(prims: seq<Primitive>, m: Merged)
    requires (forall k :: 0 <= k < |prims| ==> PrimitiveTyped(prims[k]) && PrimitiveOk(prims[k])) && m == MergedOf(prims)
    ensures MergedOk(m)
  {
    MergedShapes(prims, m);
    TripleIndices(prims);
    if |m.positions| <= WORDS { IndicesInRange(prims); }
  }

  lemma WellFormedParts(m: Merged, mesh: Mesh)
    requires MergedOk(m) && SkinOk(m, mesh) && SameVertices(m, mesh)
    ensures WellFormed(mesh) <==>
              && |m.positions| < WORDS && |m.indices| < WORDS
              && (mesh.joints.Some? ==> WeightsCover(m))
  {
  }

  /** The reader produces what the blob can carry, exactly when the counts fit 32 bits
      and the weights of a skinned mesh are not fewer than its joints: a file whose
      weight accessors are short gives a mesh the decoder refuses. */
  lemma ReaderStreamsIff(prims: seq<Primitive>, skin: Option<Skin>, m: Merged, mesh: Mesh)
    requires (forall k :: 0 <= k < |prims| ==> PrimitiveTyped(prims[k]) && PrimitiveOk(prims[k]))
    requires skin.Some? ==> SkinTyped(skin.value)
    requires m == MergedOf(prims) && ReadOf(m, skin, mesh)
    ensures Streams(mesh) <==>
              && |m.positions| < WORDS && |m.indices| < WORDS
              && (mesh.joints.Some? ==> WeightsCover(m))
  {
    MergedFacts(prims, m);
    WellFormedParts(m, mesh);
    StreamsIff(mesh);
  }

  // ------------------------------------------------------------------- an example

  const CORNER: seq<Word> := [0, 0, 0]
  const ROW: seq<Word> := [0x3F80_0000, 0, 0, 0]
  const UNMOVED: Option<seq<Word>> := Some([0, 0, 0, 0, 0, 0, 0, 0, 0, 0, 0, 0])

  /** One triangle on one joint, its weights given for the first vertex only. */
  const SHORT := Primitive([CORNER, CORNER, CORNER], None, None, None,
                           Some([[0, 0, 0, 0], [0, 0, 0, 0], [0, 0, 0, 0]]), Some([ROW]), Some([0, 1, 2]), true, true, true)
  const ONE_JOINT := Skin([0], [None], [UNMOVED], [None])

  lemma OneMerged(p: Primitive)
    requires Weighted(p)
    ensures var m := MergedOf([p]); m.positions == p.positions && m.joints == p.joints && m.weights == p.weights
  {
    GatheredIff(Weighted, Joints, [p], 1);
    GatheredIff(Weighted, Weights, [p], 1);
    OneFlat(Joints, p);
    OneFlat(Weights, p);
    OneFlat(Positions, p);
  }

  lemma OneFlat<T>(f: Primitive -> seq<T>, p: Primitive)
    ensures Flat(f, [p], 1) == f(p)
  {
    assert Flat(f, [p], 0) == [];
  }

  lemma OneJointEnds()
    ensures !SomeLoop(ONE_JOINT)
  {
    assert JointOrder.Chain(ONE_JOINT.nodeParents, 0, 0) == Some(0);
    assert JointOrder.Chain(ONE_JOINT.nodeParents, 0, 1).None?;
  }

  lemma ShortReadable()
    ensures SkinReadable(MergedOf([SHORT]), ONE_JOINT)
  {
    OneMerged(SHORT);
    OneJointEnds();
  }

  lemma ShortRefused(mesh: Mesh)
    requires ReadOf(MergedOf([SHORT]), Some(ONE_JOINT), mesh)
    ensures !Streams(mesh)
  {
    OneMerged(SHORT);
    ReaderStreamsIff([SHORT], Some(ONE_JOINT), MergedOf([SHORT]), mesh);
  }
}
