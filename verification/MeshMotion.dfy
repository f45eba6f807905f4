/** The matrix helpers told by what they do to points: which point a product, a CFrame or
    a written node moves a point to, when a matrix has no inverse, and which nodes a reader
    finds under which (rodeo-client/src/runtime/mesh.rs). */
module MeshMotion {
  import opened Options
  import opened MeshMatrix
  import opened MeshRotation

  // -------------------------------------------------------------- matrices on points

  /** Where m takes v: a point when v's last entry is one, a direction when it is zero. */
  ghost predicate Takes(m: Mat4, v: Row, to: Row) {
    && to.x == m.r0.x * v.x + m.r0.y * v.y + m.r0.z * v.z + m.r0.w * v.w
    && to.y == m.r1.x * v.x + m.r1.y * v.y + m.r1.z * v.z + m.r1.w * v.w
    && to.z == m.r2.x * v.x + m.r2.y * v.y + m.r2.z * v.z + m.r2.w * v.w
    && to.w == m.r3.x * v.x + m.r3.y * v.y + m.r3.z * v.z + m.r3.w * v.w
  }

  lemma TakesIff(m: Mat4, v: Row, to: Row)
    ensures Takes(m, v, to) <==> to == MulColumn(m, v)
  {
  }

  /** A product does what its right factor does and then what its left one does. */
  lemma ProductTakes(a: Mat4, b: Mat4, u: Row, v: Row, w: Row)
    requires Takes(b, u, v) && Takes(a, v, w)
    ensures Takes(MatMul(a, b), u, w)
  {
    TakesIff(b, u, v);
    TakesIff(a, v, w);
    TakesIff(MatMul(a, b), u, w);
    EntryAssoc(a.r0, b, u);
    EntryAssoc(a.r1, b, u);
    EntryAssoc(a.r2, b, u);
    EntryAssoc(a.r3, b, u);
  }

  /** A CFrame turns a point by its rows and then moves it. */
  lemma CframeTakes(c: CFrame, x: real, y: real, z: real)
    ensures Takes(MatFromCframe(c), Row(x, y, z, 1.0),
                  Row(c.r00 * x + c.r01 * y + c.r02 * z + c.x, c.r10 * x + c.r11 * y + c.r12 * z + c.y,
                      c.r20 * x + c.r21 * y + c.r22 * z + c.z, 1.0))
  {
  }

  /** The CFrame read from a matrix does to points what the matrix does, but for a last row
      no CFrame has. */
  lemma CframeReads(m: Mat4, x: real, y: real, z: real, to: Row)
    requires Takes(m, Row(x, y, z, 1.0), to)
    ensures Takes(MatFromCframe(CframeFromMat(m)), Row(x, y, z, 1.0), to.(w := 1.0))
  {
  }

  // ------------------------------------------------------------------ singular matrices

  /** The determinant, expanded along the first row. */
  function FirstRow(m: Mat4): real {
    m.r0.x * Det3(m.r1.y, m.r1.z, m.r1.w, m.r2.y, m.r2.z, m.r2.w, m.r3.y, m.r3.z, m.r3.w)
    - m.r0.y * Det3(m.r1.x, m.r1.z, m.r1.w, m.r2.x, m.r2.z, m.r2.w, m.r3.x, m.r3.z, m.r3.w)
    + m.r0.z * Det3(m.r1.x, m.r1.y, m.r1.w, m.r2.x, m.r2.y, m.r2.w, m.r3.x, m.r3.y, m.r3.w)
    - m.r0.w * Det3(m.r1.x, m.r1.y, m.r1.z, m.r2.x, m.r2.y, m.r2.z, m.r3.x, m.r3.y, m.r3.z)
  }

  lemma DotFirst(r: Row, a: real, b: real, c: real, d: real)
    ensures Dot(r, Row(a, -b, c, -d)) == r.x * a - r.y * b + r.z * c - r.w * d
  {
  }

  /** There is no inverse exactly when the determinant is within 10^-12 of zero. */
  lemma InverseIff(m: Mat4)
    ensures MatInverse(m).None? <==> -0.000000000001 < FirstRow(m) < 0.000000000001
  {
    MatAdjugate(m);
    AdjugateIsCofactorTable(m);
    DotFirst(m.r0, Det3(m.r1.y, m.r1.z, m.r1.w, m.r2.y, m.r2.z, m.r2.w, m.r3.y, m.r3.z, m.r3.w),
             Det3(m.r1.x, m.r1.z, m.r1.w, m.r2.x, m.r2.z, m.r2.w, m.r3.x, m.r3.z, m.r3.w),
             Det3(m.r1.x, m.r1.y, m.r1.w, m.r2.x, m.r2.y, m.r2.w, m.r3.x, m.r3.y, m.r3.w),
             Det3(m.r1.x, m.r1.y, m.r1.z, m.r2.x, m.r2.y, m.r2.z, m.r3.x, m.r3.y, m.r3.z));
    assert Dot(m.r0, Column(CofactorTable(m), 0)) == FirstRow(m);
    assert Dot(m.r0, Column(Adjugate(m), 0)) == Scale(IDENTITY, Det(m)).r0.x == Det(m);
  }

  // ---------------------------------------------------------------------- quaternions

  /** r is the product of p and q. */
  ghost predicate Product(p: Quat, q: Quat, r: Quat) {
    && r.x == p.w * q.x + p.x * q.w + p.y * q.z - p.z * q.y
    && r.y == p.w * q.y - p.x * q.z + p.y * q.w + p.z * q.x
    && r.z == p.w * q.z + p.x * q.y - p.y * q.x + p.z * q.w
    && r.w == p.w * q.w - p.x * q.x - p.y * q.y - p.z * q.z
  }

  function Conjugate(q: Quat): Quat {
    Quat(-q.x, -q.y, -q.z, q.w)
  }

  ghost predicate Unit(q: Quat) {
    q.x * q.x + q.y * q.y + q.z * q.z + q.w * q.w == 1.0
  }

  lemma UnitIff(q: Quat)
    ensures Unit(q) <==> Norm(q) == 1.0
  {
    UnitProducts(q, ProductsOf(q));
  }

  lemma UnitProducts(q: Quat, p: Products)
    requires p == ProductsOf(q)
    ensures Unit(q) <==> p.xx + p.yy + p.zz + p.ww == 1.0
  {
  }

  /** Multiplying by q from the left, and by its conjugate from the right, as matrices. */
  function Left(q: Quat): Mat4 {
    Mat4(Row(q.w, -q.z, q.y, q.x), Row(q.z, q.w, -q.x, q.y), Row(-q.y, q.x, q.w, q.z), Row(-q.x, -q.y, -q.z, q.w))
  }

  function Right(q: Quat): Mat4 {
    Mat4(Row(q.w, -q.z, q.y, -q.x), Row(q.z, q.w, -q.x, -q.y), Row(-q.y, q.x, q.w, -q.z), Row(q.x, q.y, q.z, q.w))
  }

  function AsRow(q: Quat): Row {
    Row(q.x, q.y, q.z, q.w)
  }

  lemma LeftTakes(q: Quat, v: Quat, r: Quat)
    requires Product(q, v, r)
    ensures Takes(Left(q), AsRow(v), AsRow(r))
  {
  }

  lemma RightTakes(q: Quat, v: Quat, r: Quat)
    requires Product(v, Conjugate(q), r)
    ensures Takes(Right(q), AsRow(v), AsRow(r))
  {
  }

  /** One row of the two matrices' product. */
  lemma RowTurned(q: Quat)
    ensures RowMul(Row(q.w, -q.z, q.y, -q.x), Left(q)) ==
            Row(q.x * q.x + q.w * q.w - q.y * q.y - q.z * q.z, 2.0 * (q.x * q.y - q.z * q.w), 2.0 * (q.x * q.z + q.y * q.w), 0.0)
    ensures RowMul(Row(q.z, q.w, -q.x, -q.y), Left(q)) ==
            Row(2.0 * (q.x * q.y + q.z * q.w), q.y * q.y + q.w * q.w - q.z * q.z - q.x * q.x, 2.0 * (q.y * q.z - q.x * q.w), 0.0)
  {
  }

  lemma RowsTurned(q: Quat)
    ensures RowMul(Row(-q.y, q.x, q.w, -q.z), Left(q)) ==
            Row(2.0 * (q.x * q.z - q.y * q.w), 2.0 * (q.y * q.z + q.x * q.w), q.z * q.z + q.w * q.w - q.x * q.x - q.y * q.y, 0.0)
    ensures RowMul(Row(q.x, q.y, q.z, q.w), Left(q)) == Row(0.0, 0.0, 0.0, q.x * q.x + q.y * q.y + q.z * q.z + q.w * q.w)
  {
  }

  lemma TurnIsProduct(q: Quat, p: Products, x: real, y: real, z: real)
    requires p == ProductsOf(q) && p.xx + p.yy + p.zz + p.ww == 1.0
    ensures MatMul(Right(q), Left(q)) == Turn(MatFromProducts(p, x, y, z))
  {
    RowTurned(q);
    RowsTurned(q);
  }

  /** An affine matrix does to points what its turn does to directions, and then moves. */
  lemma AffineTakes(m: Mat4, a: real, b: real, c: real, t: Row)
    requires Affine(m) && Takes(Turn(m), Row(a, b, c, 0.0), t)
    ensures t.w == 0.0 && Takes(m, Row(a, b, c, 1.0), Row(t.x + m.r0.w, t.y + m.r1.w, t.z + m.r2.w, 1.0))
  {
  }

  /** A written node turns a point by its quaternion, v going to q v q*, and then moves it. */
  lemma NodeTakes(n: Node, v: Quat, u: Quat, t: Quat)
    requires Unit(n.rotation) && v.w == 0.0
    requires Product(n.rotation, v, u) && Product(u, Conjugate(n.rotation), t)
    ensures t.w == 0.0 && Takes(Posed(n), Row(v.x, v.y, v.z, 1.0), Row(t.x + n.x, t.y + n.y, t.z + n.z, 1.0))
  {
    var q := n.rotation;
    var p := ProductsOf(q);
    UnitProducts(q, p);
    LeftTakes(q, v, u);
    RightTakes(q, u, t);
    ProductTakes(Right(q), Left(q), AsRow(v), AsRow(u), AsRow(t));
    TurnIsProduct(q, p, n.x, n.y, n.z);
    AffineTakes(MatFromProducts(p, n.x, n.y, n.z), v.x, v.y, v.z, AsRow(t));
  }

  /** Which quaternion is written: a positive multiple of it is read off the matrix, by the
      trace when that is positive, else by the largest diagonal entry, the later one of
      equal ones. */
  ghost predicate ReadOff(m: Mat4, u: Quat) {
    var trace := m.r0.x + m.r1.y + m.r2.z;
    if trace > 0.0 then u == Quat(m.r2.y - m.r1.z, m.r0.z - m.r2.x, m.r1.x - m.r0.y, 1.0 + trace)
    else if m.r0.x > m.r1.y && m.r0.x > m.r2.z then
      u == Quat(1.0 + m.r0.x - m.r1.y - m.r2.z, m.r0.y + m.r1.x, m.r0.z + m.r2.x, m.r2.y - m.r1.z)
    else if m.r1.y > m.r2.z then
      u == Quat(m.r0.y + m.r1.x, 1.0 + m.r1.y - m.r0.x - m.r2.z, m.r1.z + m.r2.y, m.r0.z - m.r2.x)
    else u == Quat(m.r0.z + m.r2.x, m.r1.z + m.r2.y, 1.0 + m.r2.z - m.r0.x - m.r1.y, m.r1.x - m.r0.y)
  }

  /** u is f times q, component by component. */
  predicate Multiple(u: Quat, f: real, q: Quat) {
    u.x == f * q.x && u.y == f * q.y && u.z == f * q.z && u.w == f * q.w
  }

  /** The row of the table for an axis. */
  function Lead(k: Products, a: Axis): Quat {
    match a
    case X => Quat(k.xx, k.xy, k.xz, k.xw)
    case Y => Quat(k.xy, k.yy, k.yz, k.yw)
    case Z => Quat(k.xz, k.yz, k.zz, k.zw)
    case W => Quat(k.xw, k.yw, k.zw, k.ww)
  }

  lemma LeadReadOff(m: Mat4)
    ensures ReadOff(m, Lead(Fourfold(m), Chosen(m)))
  {
  }

  lemma DividedMultiple(k: Products, a: Axis, s: real)
    requires s > 0.0 && s * s == 4.0 * Diagonal(k, a)
    ensures Multiple(Lead(k, a), s, Divided(k, a, s))
  {
    QuarterOf(s, Diagonal(k, a));
    Ratio(k.xy, s);
    Ratio(k.xz, s);
    Ratio(k.yz, s);
    Ratio(k.xw, s);
    Ratio(k.yw, s);
    Ratio(k.zw, s);
  }

  lemma QuarterOf(s: real, d: real)
    requires s * s == 4.0 * d
    ensures s * (0.25 * s) == d
  {
  }

  lemma MultipleOfMultiple(u: Quat, f: real, q: Quat, len: real)
    requires Multiple(u, f, q) && f > 0.0 && len > 0.0
    ensures f * len > 0.0 && Multiple(u, f * len, Quat(q.x / len, q.y / len, q.z / len, q.w / len))
  {
    PositiveProduct(f, len);
    MultipleEntry(u.x, f, q.x, len);
    MultipleEntry(u.y, f, q.y, len);
    MultipleEntry(u.z, f, q.z, len);
    MultipleEntry(u.w, f, q.w, len);
  }

  lemma MultipleEntry(u: real, f: real, q: real, len: real)
    requires u == f * q && len > 0.0
    ensures u == (f * len) * (q / len)
  {
    Ratio(q, len);
    assert (f * len) * (q / len) == f * ((q / len) * len);
  }

  lemma RawMultiple(m: Mat4, root: real -> real) returns (s: real)
    requires SquareRoot(root)
    ensures s > 0.0 && Multiple(Lead(Fourfold(m), Chosen(m)), s, RawQuat(m, root))
  {
    ChosenLarge(m);
    s := Twice(root, Diagonal(Fourfold(m), Chosen(m)));
    DividedMultiple(Fourfold(m), Chosen(m), s);
  }

  lemma FromRaw(u: Quat, s: real, raw: Quat, len: real, q: Quat) returns (f: real)
    requires Multiple(u, s, raw) && s > 0.0 && len > 0.0 && q == Quat(raw.x / len, raw.y / len, raw.z / len, raw.w / len)
    ensures f > 0.0 && Multiple(u, f, q)
  {
    f := s * len;
    MultipleOfMultiple(u, s, raw, len);
  }

  lemma QuatMultiple(m: Mat4, root: real -> real) returns (f: real)
    requires SquareRoot(root)
    ensures f > 0.0 && Multiple(Lead(Fourfold(m), Chosen(m)), f, QuatFromMat(m, root))
  {
    var s := RawMultiple(m, root);
    NormPositive(m, root);
    f := FromRaw(Lead(Fourfold(m), Chosen(m)), s, RawQuat(m, root), root(Norm(RawQuat(m, root))), QuatFromMat(m, root));
  }

  /** What is written of a local matrix: where it takes the origin, and the unit quaternion
      read off it. */
  lemma NodeWritten(m: Mat4, root: real -> real) returns (n: Node, u: Quat, f: real)
    requires SquareRoot(root)
    ensures n == NodeOf(m, root) && n.x == m.r0.w && n.y == m.r1.w && n.z == m.r2.w
    ensures ReadOff(m, u) && f > 0.0 && Multiple(u, f, n.rotation) && Unit(n.rotation)
  {
    n := NodeOf(m, root);
    u := Lead(Fourfold(m), Chosen(m));
    LeadReadOff(m);
    f := QuatMultiple(m, root);
    QuatUnit(m, root);
    UnitIff(n.rotation);
  }

  // --------------------------------------------------------------------------- normals

  /** A transformed normal: the normal itself where there is no inverse; else a vector whose
      product with every direction moved by m is, but for one factor, the normal's product
      with that direction; and of length one, or no longer than 10^-12 and then as it is. */
  lemma NormalExact(m: Mat4, n: Row, root: real -> real) returns (len: real)
    requires SquareRoot(root) && Affine(m) && n.w == 0.0
    ensures var r := TransformNormal(m, n, root);
            if -0.000000000001 < FirstRow(m) < 0.000000000001 then r == n
            else
              && len > 0.0 && (forall t: Row, to: Row :: t.w == 0.0 && Takes(m, t, to) ==> Times(Dot(r, to), len) == Dot(n, t))
              && (Dot(r, r) == 1.0 || (len == 1.0 && root(Dot(r, r)) <= 0.000000000001))
  {
    InverseIff(m);
    len := 1.0;
    if MatInverse(m).Some? {
      var v := TurnedNormal(MatInverse(m).value, n);
      len := MeshMatrix.Length(v, root);
      forall t: Row, to: Row | t.w == 0.0 && Takes(m, t, to)
        ensures len > 0.0 && Times(Dot(TransformNormal(m, n, root), to), len) == Dot(n, t)
      {
        NormalKeepsAngles(m, n, t, root);
        TakesIff(m, t, to);
      }
      if root(Dot(v, v)) > EPSILON { NormalIsUnit(m, n, root); }
    }
  }

  // ------------------------------------------------------------------------- skeletons

  /** How a reader poses bone i: by its local matrix alone at a root, else by the local
      matrix and then the way its parent is posed. */
  lemma WorldTakes(bones: seq<Bone>, locals: seq<Mat4>, i: nat, u: Row, v: Row, w: Row)
    requires ParentsFirst(bones) && i < |bones| && i < |locals|
    requires Takes(locals[i], u, v)
    requires if bones[i].parent.None? then w == v else Takes(World(bones, locals, bones[i].parent.value), v, w)
    ensures Takes(World(bones, locals, i), u, w)
  {
    if bones[i].parent.Some? { ProductTakes(World(bones, locals, bones[i].parent.value), locals[i], u, v, w); }
  }

  /** In the bind pose a point of bone i's space goes where the bone's CFrame puts it. */
  lemma PosedTakes(bones: seq<Bone>, locals: seq<Mat4>, i: nat, x: real, y: real, z: real) returns (c: CFrame, to: Row)
    requires ParentsFirst(bones) && i < |bones| == |locals| && PosesBinds(bones, locals)
    ensures c == bones[i].cframe && Takes(World(bones, locals, i), Row(x, y, z, 1.0), to)
    ensures to.x == c.r00 * x + c.r01 * y + c.r02 * z + c.x && to.y == c.r10 * x + c.r11 * y + c.r12 * z + c.y
    ensures to.z == c.r20 * x + c.r21 * y + c.r22 * z + c.z && to.w == 1.0
  {
    c := bones[i].cframe;
    CframeTakes(c, x, y, z);
    to := Row(c.r00 * x + c.r01 * y + c.r02 * z + c.x, c.r10 * x + c.r11 * y + c.r12 * z + c.y, c.r20 * x + c.r21 * y + c.r22 * z + c.z, 1.0);
  }

  ghost predicate Ascending(s: seq<nat>) {
    forall i, j :: 0 <= i < j < |s| ==> s[i] < s[j]
  }

  /** children[p] lists the nodes of p's children among the first n bones, and roots the
      nodes of those without a parent, each in order. */
  ghost predicate Listed(bones: seq<Bone>, n: nat, children: seq<seq<nat>>, roots: seq<nat>)
    requires n <= |bones|
  {
    && |children| == |bones| && Ascending(roots)
    && (forall x :: x in roots <==> 0 < x <= n && bones[x - 1].parent.None?)
    && (forall p :: 0 <= p < |bones| ==> Ascending(children[p]))
    && forall p, x :: 0 <= p < |bones| ==> (x in children[p] <==> 0 < x <= n && bones[x - 1].parent == Some(p))
  }

  lemma ListedNext(bones: seq<Bone>, n: nat, children: seq<seq<nat>>, roots: seq<nat>)
    requires ParentsFirst(bones) && n < |bones| && Listed(bones, n, children, roots)
    ensures match bones[n].parent
            case None => Listed(bones, n + 1, children, roots + [n + 1])
            case Some(p) => Listed(bones, n + 1, children[p := children[p] + [n + 1]], roots)
  {
    match bones[n].parent
    case None =>
      assert forall i :: 0 <= i < |roots| ==> roots[i] in roots;
    case Some(p) =>
      assert forall i :: 0 <= i < |children[p]| ==> children[p][i] in children[p];
      var more := children[p] + [n + 1];
      assert forall x :: x in more <==> x in children[p] || x == n + 1;
  }

  /** The loop over the bones that tells every node its children and the scene its roots. */
  method NodeTree(bones: seq<Bone>) returns (children: seq<seq<nat>>, roots: seq<nat>)
    requires ParentsFirst(bones)
    ensures Listed(bones, |bones|, children, roots)
  {
    children, roots := seq(|bones|, _ => []), [];
    for i := 0 to |bones|
      invariant Listed(bones, i, children, roots)
    {
      ListedNext(bones, i, children, roots);
      if bones[i].parent.Some? {
        var p := bones[i].parent.value;
        children := children[p := children[p] + [i + 1]];
      } else {
        roots := roots + [i + 1];
      }
    }
  }
}
