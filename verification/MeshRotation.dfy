/** Bones as they are written: a node holds a translation and a unit quaternion
    (`quat_from_mat` and `write_gltf` in rodeo-client/src/runtime/mesh.rs), so the file
    keeps a pose exactly when nothing but a rigid motion is to be kept. */
module MeshRotation {
  import opened Options
  import opened MeshMatrix

  datatype Quat = Quat(x: real, y: real, z: real, w: real)

  // ------------------------------------------------------------------- rotations

  /** The rotation part of an affine matrix. */
  function Turn(m: Mat4): Mat4 {
    Mat4(m.r0.(w := 0.0), m.r1.(w := 0.0), m.r2.(w := 0.0), IDENTITY.r3)
  }

  function Cross(a: Row, b: Row): Row {
    Row(Minor(a.y, b.z, a.z, b.y), Minor(a.z, b.x, a.x, b.z), Minor(a.x, b.y, a.y, b.x), 0.0)
  }

  /** Three perpendicular unit rows, right-handed. */
  predicate Rotation(m: Mat4) {
    var t := Turn(m);
    && Dot(t.r0, t.r0) == Dot(t.r1, t.r1) == Dot(t.r2, t.r2) == 1.0
    && Dot(t.r0, t.r1) == Dot(t.r0, t.r2) == Dot(t.r1, t.r2) == 0.0
    && Cross(t.r0, t.r1) == t.r2
  }

  predicate Rigid(m: Mat4) {
    Affine(m) && Rotation(m)
  }

  lemma DotSwap(a: Row, b: Row)
    ensures Dot(a, b) == Dot(b, a)
  {
  }

  lemma CrossBackOne(a: real, b: real, c: real, d: real, e: real, f: real)
    requires a * a + b * b + c * c == 1.0 && d * d + e * e + f * f == 1.0 && a * d + b * e + c * f == 0.0
    ensures Minor(e, Minor(a, e, b, d), f, Minor(c, d, a, f)) == a
    ensures Minor(Minor(c, d, a, f), c, Minor(a, e, b, d), b) == d
  {
    assert Minor(e, Minor(a, e, b, d), f, Minor(c, d, a, f)) == a * (d * d + e * e + f * f) - d * (a * d + b * e + c * f);
    assert Minor(Minor(c, d, a, f), c, Minor(a, e, b, d), b) == d * (a * a + b * b + c * c) - a * (a * d + b * e + c * f);
  }

  lemma CrossBackAll(a: real, b: real, c: real, d: real, e: real, f: real)
    requires a * a + b * b + c * c == 1.0 && d * d + e * e + f * f == 1.0 && a * d + b * e + c * f == 0.0
    ensures Cross(Row(d, e, f, 0.0), Cross(Row(a, b, c, 0.0), Row(d, e, f, 0.0))) == Row(a, b, c, 0.0)
    ensures Cross(Cross(Row(a, b, c, 0.0), Row(d, e, f, 0.0)), Row(a, b, c, 0.0)) == Row(d, e, f, 0.0)
  {
    CrossBackOne(a, b, c, d, e, f);
    CrossBackOne(b, c, a, e, f, d);
    CrossBackOne(c, a, b, f, d, e);
  }

  /** Crossing twice comes back. */
  lemma CrossBack(a: Row, b: Row)
    requires a.w == b.w == 0.0 && Dot(a, a) == Dot(b, b) == 1.0 && Dot(a, b) == 0.0
    ensures Cross(b, Cross(a, b)) == a && Cross(Cross(a, b), a) == b
  {
    FlatDot(a, a);
    FlatDot(b, b);
    FlatDot(a, b);
    CrossBackAll(a.x, a.y, a.z, b.x, b.y, b.z);
  }

  lemma FlatDot(a: Row, b: Row)
    requires a.w == 0.0
    ensures Dot(a, b) == a.x * b.x + a.y * b.y + a.z * b.z
  {
  }

  lemma MulTranspose(t: Mat4)
    ensures MatMul(t, Transpose(t)) ==
            Mat4(Row(Dot(t.r0, t.r0), Dot(t.r0, t.r1), Dot(t.r0, t.r2), Dot(t.r0, t.r3)),
                 Row(Dot(t.r1, t.r0), Dot(t.r1, t.r1), Dot(t.r1, t.r2), Dot(t.r1, t.r3)),
                 Row(Dot(t.r2, t.r0), Dot(t.r2, t.r1), Dot(t.r2, t.r2), Dot(t.r2, t.r3)),
                 Row(Dot(t.r3, t.r0), Dot(t.r3, t.r1), Dot(t.r3, t.r2), Dot(t.r3, t.r3)))
  {
    var u := Transpose(t);
    assert Column(u, 0) == t.r0 && Column(u, 1) == t.r1 && Column(u, 2) == t.r2 && Column(u, 3) == t.r3;
  }

  lemma DotLast(a: Row)
    ensures Dot(a, IDENTITY.r3) == a.w == Dot(IDENTITY.r3, a)
  {
  }

  lemma Orthonormal(t: Mat4)
    requires t == Turn(t)
    requires Dot(t.r0, t.r0) == Dot(t.r1, t.r1) == Dot(t.r2, t.r2) == 1.0
    requires Dot(t.r0, t.r1) == Dot(t.r0, t.r2) == Dot(t.r1, t.r2) == 0.0
    ensures MatMul(t, Transpose(t)) == IDENTITY
  {
    MulTranspose(t);
    DotSwap(t.r0, t.r1);
    DotSwap(t.r0, t.r2);
    DotSwap(t.r1, t.r2);
    DotLast(t.r0);
    DotLast(t.r1);
    DotLast(t.r2);
    DotLast(t.r3);
  }

  lemma RotationInverse(t: Mat4)
    requires Rotation(t) && t == Turn(t)
    ensures Det(t) == 1.0 && MatMul(t, Transpose(t)) == IDENTITY && MatMul(Transpose(t), t) == IDENTITY
  {
    Orthonormal(t);
    DetTurn(t);
    InverseUnique(t, Transpose(t));
    InverseTwoSided(t);
  }

  lemma DetTurn(t: Mat4)
    requires t == Turn(t)
    ensures Det(t) == Dot(t.r2, Cross(t.r0, t.r1))
  {
  }

  // ------------------------------------------------------- four times the quaternion

  /** Four times the products of the quaternion's components, read off the matrix. */
  datatype Products = Products(xx: real, yy: real, zz: real, ww: real, xy: real, xz: real, yz: real, xw: real, yw: real, zw: real)

  function Fourfold(m: Mat4): Products {
    Products(1.0 + m.r0.x - m.r1.y - m.r2.z, 1.0 + m.r1.y - m.r2.z - m.r0.x, 1.0 + m.r2.z - m.r0.x - m.r1.y, 1.0 + m.r0.x + m.r1.y + m.r2.z,
             m.r0.y + m.r1.x, m.r0.z + m.r2.x, m.r1.z + m.r2.y, m.r2.y - m.r1.z, m.r0.z - m.r2.x, m.r1.x - m.r0.y)
  }

  /** A third of the 2x2 minors of such a table. */
  predicate Third(xx: real, yy: real, ww: real, xy: real, xz: real, yz: real, xw: real, yw: real, zw: real) {
    && xx * yy == xy * xy && xx * ww == xw * xw && xy * ww == xw * yw
    && yz * xx == xy * xz && yw * xx == xy * xw && zw * xx == xz * xw
  }

  /** Three numbers and their products with p, as the products of four numbers are. */
  predicate Pivots(p: real, a: real, b: real, c: real, aa: real, bb: real, cc: real, ab: real, ac: real, bc: real) {
    aa * p == a * a && bb * p == b * b && cc * p == c * c && ab * p == a * b && ac * p == a * c && bc * p == b * c
  }

  predicate Units(a: real, b: real, c: real, d: real, e: real, f: real, g: real, h: real, i: real) {
    && a * a + b * b + c * c == 1.0 && d * d + e * e + f * f == 1.0 && g * g + h * h + i * i == 1.0
    && a * d + b * e + c * f == 0.0 && a * g + b * h + c * i == 0.0 && d * g + e * h + f * i == 0.0
  }

  predicate Crossed(a: real, b: real, c: real, d: real, e: real, f: real, g: real, h: real, i: real) {
    && a == e * i - f * h && b == f * g - d * i && c == d * h - e * g
    && d == c * h - b * i && e == a * i - c * g && f == b * g - a * h
    && g == b * f - c * e && h == c * d - a * f && i == a * e - b * d
  }

  /** Nine numbers that are the rows of a rotation. */
  predicate Turns(a: real, b: real, c: real, d: real, e: real, f: real, g: real, h: real, i: real) {
    Units(a, b, c, d, e, f, g, h, i) && Units(a, d, g, b, e, h, c, f, i) && Crossed(a, b, c, d, e, f, g, h, i)
  }

  lemma AxesMovedOn(a: real, b: real, c: real, d: real, e: real, f: real, g: real, h: real, i: real)
    requires Turns(a, b, c, d, e, f, g, h, i)
    ensures Turns(e, f, d, h, i, g, b, c, a)
  {
  }

  lemma MinorsVanish(a: real, b: real, c: real, d: real, e: real, f: real, g: real, h: real, i: real)
    requires Turns(a, b, c, d, e, f, g, h, i)
    ensures Third(1.0 + a - e - i, 1.0 + e - i - a, 1.0 + a + e + i, b + d, c + g, f + h, h - f, c - g, d - b)
  {
  }

  /** The other thirds are the first with the axes moved on. */
  lemma AllMinorsVanish(a: real, b: real, c: real, d: real, e: real, f: real, g: real, h: real, i: real)
    requires Turns(a, b, c, d, e, f, g, h, i)
    ensures Third(1.0 + a - e - i, 1.0 + e - i - a, 1.0 + a + e + i, b + d, c + g, f + h, h - f, c - g, d - b)
    ensures Third(1.0 + e - i - a, 1.0 + i - a - e, 1.0 + e + i + a, f + h, d + b, g + c, c - g, d - b, h - f)
    ensures Third(1.0 + i - a - e, 1.0 + a - e - i, 1.0 + i + a + e, g + c, h + f, b + d, d - b, h - f, c - g)
  {
    MinorsVanish(a, b, c, d, e, f, g, h, i);
    AxesMovedOn(a, b, c, d, e, f, g, h, i);
    MinorsVanish(e, f, d, h, i, g, b, c, a);
    AxesMovedOn(e, f, d, h, i, g, b, c, a);
    MinorsVanish(i, g, h, c, a, b, f, d, e);
  }

  lemma UnitsOfRows(a: Row, b: Row, c: Row)
    requires a.w == b.w == c.w == 0.0
    requires Dot(a, a) == Dot(b, b) == Dot(c, c) == 1.0 && Dot(a, b) == Dot(a, c) == Dot(b, c) == 0.0
    ensures Units(a.x, a.y, a.z, b.x, b.y, b.z, c.x, c.y, c.z)
  {
    FlatDot(a, a);
    FlatDot(b, b);
    FlatDot(c, c);
    FlatDot(a, b);
    FlatDot(a, c);
    FlatDot(b, c);
  }

  lemma UnitsOf(t: Mat4)
    requires t == Turn(t) && MatMul(t, Transpose(t)) == IDENTITY
    ensures Units(t.r0.x, t.r0.y, t.r0.z, t.r1.x, t.r1.y, t.r1.z, t.r2.x, t.r2.y, t.r2.z)
  {
    UnitProducts(t);
    UnitsOfRows(t.r0, t.r1, t.r2);
  }

  lemma UnitProducts(t: Mat4)
    requires MatMul(t, Transpose(t)) == IDENTITY
    ensures Dot(t.r0, t.r0) == Dot(t.r1, t.r1) == Dot(t.r2, t.r2) == 1.0
    ensures Dot(t.r0, t.r1) == Dot(t.r0, t.r2) == Dot(t.r1, t.r2) == 0.0
  {
  }

  lemma CrossedOf(a: Row, b: Row, c: Row)
    requires Cross(a, b) == c && Cross(b, c) == a && Cross(c, a) == b
    ensures Crossed(a.x, a.y, a.z, b.x, b.y, b.z, c.x, c.y, c.z)
  {
  }

  lemma RotationTurns(m: Mat4)
    requires Rotation(m)
    ensures Turns(m.r0.x, m.r0.y, m.r0.z, m.r1.x, m.r1.y, m.r1.z, m.r2.x, m.r2.y, m.r2.z)
  {
    var t := Turn(m);
    CrossBack(t.r0, t.r1);
    CrossedOf(t.r0, t.r1, t.r2);
    RotationInverse(t);
    UnitsOf(t);
    assert Transpose(t) == Turn(Transpose(t)) && Transpose(Transpose(t)) == t;
    UnitsOf(Transpose(t));
  }

  lemma ThirdsPivot(k: Products, a: Axis)
    requires Third(k.xx, k.yy, k.ww, k.xy, k.xz, k.yz, k.xw, k.yw, k.zw)
    requires Third(k.yy, k.zz, k.ww, k.yz, k.xy, k.xz, k.yw, k.zw, k.xw)
    requires Third(k.zz, k.xx, k.ww, k.xz, k.yz, k.xy, k.zw, k.xw, k.yw)
    ensures PivotsAt(k, a)
  {
  }

  /** Every 2x2 minor vanishes: these are the products of four numbers. */
  lemma RotationRankOne(m: Mat4, a: Axis)
    requires Rotation(m)
    ensures PivotsAt(Fourfold(m), a)
  {
    RotationTurns(m);
    AllMinorsVanish(m.r0.x, m.r0.y, m.r0.z, m.r1.x, m.r1.y, m.r1.z, m.r2.x, m.r2.y, m.r2.z);
    ThirdsPivot(Fourfold(m), a);
  }

  // -------------------------------------------------------------- to a quaternion

  /** `sqrt() * 2.0`, as the four branches take it. */
  function Twice(root: real -> real, x: real): (s: real)
    requires SquareRoot(root) && x > 0.0
    ensures s > 0.0 && s * s == 4.0 * x
  {
    root(x) * 2.0
  }

  /** The component that `quat_from_mat` divides by. */
  datatype Axis = X | Y | Z | W

  function Chosen(m: Mat4): Axis {
    if m.r0.x + m.r1.y + m.r2.z > 0.0 then W
    else if m.r0.x > m.r1.y && m.r0.x > m.r2.z then X
    else if m.r1.y > m.r2.z then Y
    else Z
  }

  function Diagonal(k: Products, a: Axis): real {
    match a
    case X => k.xx
    case Y => k.yy
    case Z => k.zz
    case W => k.ww
  }

  function Divided(k: Products, a: Axis, s: real): Quat
    requires s > 0.0
  {
    match a
    case X => Quat(0.25 * s, k.xy / s, k.xz / s, k.xw / s)
    case Y => Quat(k.xy / s, 0.25 * s, k.yz / s, k.yw / s)
    case Z => Quat(k.xz / s, k.yz / s, 0.25 * s, k.zw / s)
    case W => Quat(k.xw / s, k.yw / s, k.zw / s, 0.25 * s)
  }

  /** Whatever the matrix, the root is taken of at least one. */
  lemma ChosenLarge(m: Mat4)
    ensures Diagonal(Fourfold(m), Chosen(m)) >= 1.0
  {
  }

  /** `quat_from_mat` before its last line. */
  function RawQuat(m: Mat4, root: real -> real): Quat
    requires SquareRoot(root)
  {
    ChosenLarge(m);
    Divided(Fourfold(m), Chosen(m), Twice(root, Diagonal(Fourfold(m), Chosen(m))))
  }

  function Pairwise(x: real, y: real, z: real, w: real): Products {
    Products(x * x, y * y, z * z, w * w, x * y, x * z, y * z, x * w, y * w, z * w)
  }

  function ProductsOf(q: Quat): Products {
    Pairwise(q.x, q.y, q.z, q.w)
  }

  function Norm(q: Quat): real {
    var p := ProductsOf(q);
    p.xx + p.yy + p.zz + p.ww
  }

  function QuatFromMat(m: Mat4, root: real -> real): Quat
    requires SquareRoot(root)
  {
    var q := RawQuat(m, root);
    var len := root(Norm(q));
    NormPositive(m, root);
    Quat(q.x / len, q.y / len, q.z / len, q.w / len)
  }

  lemma PositiveProduct(x: real, y: real)
    requires x > 0.0 && y > 0.0
    ensures Times(x, y) > 0.0
  {
  }

  lemma Squared(x: real)
    ensures Times(x, x) >= 0.0 && (x > 0.0 ==> Times(x, x) > 0.0)
  {
    if x > 0.0 {
      PositiveProduct(x, x);
    } else if x < 0.0 {
      PositiveProduct(-x, -x);
      assert Times(-x, -x) == Times(x, x);
    }
  }

  lemma NotZero(q: Quat)
    requires q.x > 0.0 || q.y > 0.0 || q.z > 0.0 || q.w > 0.0
    ensures Norm(q) > 0.0
  {
    Squared(q.x);
    Squared(q.y);
    Squared(q.z);
    Squared(q.w);
  }

  lemma RootPositive(root: real -> real, x: real)
    requires SquareRoot(root) && x > 0.0
    ensures root(x) > 0.0
  {
    assert root(x) * root(x) == x;
  }

  lemma NormPositive(m: Mat4, root: real -> real)
    requires SquareRoot(root)
    ensures Norm(RawQuat(m, root)) > 0.0 && root(Norm(RawQuat(m, root))) > 0.0
  {
    NotZero(RawQuat(m, root));
    RootPositive(root, Norm(RawQuat(m, root)));
  }

  // ------------------------------------------------------------------- and back

  function MatFromProducts(p: Products, x: real, y: real, z: real): Mat4 {
    Mat4(Row(1.0 - 2.0 * (p.yy + p.zz), 2.0 * (p.xy - p.zw), 2.0 * (p.xz + p.yw), x),
         Row(2.0 * (p.xy + p.zw), 1.0 - 2.0 * (p.xx + p.zz), 2.0 * (p.yz - p.xw), y),
         Row(2.0 * (p.xz - p.yw), 2.0 * (p.yz + p.xw), 1.0 - 2.0 * (p.xx + p.yy), z),
         IDENTITY.r3)
  }

  /** How a reader turns a unit quaternion into a rotation. */
  function MatFromQuat(q: Quat, x: real, y: real, z: real): Mat4 {
    MatFromProducts(ProductsOf(q), x, y, z)
  }

  function Quarter(k: Products): Products {
    Products(0.25 * k.xx, 0.25 * k.yy, 0.25 * k.zz, 0.25 * k.ww, 0.25 * k.xy, 0.25 * k.xz, 0.25 * k.yz, 0.25 * k.xw, 0.25 * k.yw, 0.25 * k.zw)
  }

  lemma ZeroFactor(a: real, p: real)
    requires a * p == 0.0 && p > 0.0
    ensures a == 0.0
  {
  }

  lemma Ratio(a: real, s: real)
    requires s > 0.0
    ensures (a / s) * s == a
  {
  }

  lemma Shared(u: real, v: real, k: real, p: real, s: real)
    requires p > 0.0 && s * s == 4.0 * p && k * p == (u * s) * (v * s)
    ensures u * v == 0.25 * k
  {
    assert (u * s) * (v * s) == (u * v) * (s * s) == 4.0 * (u * v) * p;
    ZeroFactor(k - 4.0 * (u * v), p);
  }

  /** Three components times twice the fourth, and what that says of them all. */
  lemma QuartersFrom(u: real, v: real, w: real, s: real, p: real, aa: real, bb: real, cc: real, ab: real, ac: real, bc: real)
    requires p > 0.0 && s * s == 4.0 * p && Pivots(p, u * s, v * s, w * s, aa, bb, cc, ab, ac, bc)
    ensures Pairwise(u, v, w, 0.25 * s) == Quarter(Products(aa, bb, cc, p, ab, ac, bc, u * s, v * s, w * s))
  {
    Shared(u, u, aa, p, s);
    Shared(v, v, bb, p, s);
    Shared(w, w, cc, p, s);
    Shared(u, v, ab, p, s);
    Shared(u, w, ac, p, s);
    Shared(v, w, bc, p, s);
  }

  lemma DividedFrom(a: real, b: real, c: real, p: real, aa: real, bb: real, cc: real, ab: real, ac: real, bc: real, s: real)
    requires s > 0.0 && p > 0.0 && s * s == 4.0 * p && Pivots(p, a, b, c, aa, bb, cc, ab, ac, bc)
    ensures Pairwise(a / s, b / s, c / s, 0.25 * s) == Quarter(Products(aa, bb, cc, p, ab, ac, bc, a, b, c))
  {
    Ratio(a, s);
    Ratio(b, s);
    Ratio(c, s);
    QuartersFrom(a / s, b / s, c / s, s, p, aa, bb, cc, ab, ac, bc);
  }

  /** The fourth may be any of them. */
  lemma Moved(u: real, v: real, w: real, t: real, p: Products)
    requires Pairwise(u, v, w, t) == Quarter(p)
    ensures Pairwise(t, u, v, w) == Quarter(Products(p.ww, p.xx, p.yy, p.zz, p.xw, p.yw, p.xy, p.zw, p.xz, p.yz))
    ensures Pairwise(u, t, v, w) == Quarter(Products(p.xx, p.ww, p.yy, p.zz, p.xw, p.xy, p.yw, p.xz, p.zw, p.yz))
    ensures Pairwise(u, v, t, w) == Quarter(Products(p.xx, p.yy, p.ww, p.zz, p.xy, p.xw, p.yw, p.xz, p.yz, p.zw))
  {
  }

  predicate PivotsAt(k: Products, a: Axis) {
    match a
    case X => Pivots(k.xx, k.xy, k.xz, k.xw, k.yy, k.zz, k.ww, k.yz, k.yw, k.zw)
    case Y => Pivots(k.yy, k.xy, k.yz, k.yw, k.xx, k.zz, k.ww, k.xz, k.xw, k.zw)
    case Z => Pivots(k.zz, k.xz, k.yz, k.zw, k.xx, k.yy, k.ww, k.xy, k.xw, k.yw)
    case W => Pivots(k.ww, k.xw, k.yw, k.zw, k.xx, k.yy, k.zz, k.xy, k.xz, k.yz)
  }

  lemma DividedQuarters(k: Products, a: Axis, s: real)
    requires PivotsAt(k, a) && s > 0.0 && Diagonal(k, a) > 0.0 && s * s == 4.0 * Diagonal(k, a)
    ensures ProductsOf(Divided(k, a, s)) == Quarter(k)
  {
    match a
    case X =>
      DividedFrom(k.xy, k.xz, k.xw, k.xx, k.yy, k.zz, k.ww, k.yz, k.yw, k.zw, s);
      Moved(k.xy / s, k.xz / s, k.xw / s, 0.25 * s, Products(k.yy, k.zz, k.ww, k.xx, k.yz, k.yw, k.zw, k.xy, k.xz, k.xw));
    case Y =>
      DividedFrom(k.xy, k.yz, k.yw, k.yy, k.xx, k.zz, k.ww, k.xz, k.xw, k.zw, s);
      Moved(k.xy / s, k.yz / s, k.yw / s, 0.25 * s, Products(k.xx, k.zz, k.ww, k.yy, k.xz, k.xw, k.zw, k.xy, k.yz, k.yw));
    case Z =>
      DividedFrom(k.xz, k.yz, k.zw, k.zz, k.xx, k.yy, k.ww, k.xy, k.xw, k.yw, s);
      Moved(k.xz / s, k.yz / s, k.zw / s, 0.25 * s, Products(k.xx, k.yy, k.ww, k.zz, k.xy, k.xw, k.yw, k.xz, k.yz, k.zw));
    case W =>
      DividedFrom(k.xw, k.yw, k.zw, k.ww, k.xx, k.yy, k.zz, k.xy, k.xz, k.yz, s);
  }

  lemma QuartersByRoot(k: Products, a: Axis, root: real -> real)
    requires SquareRoot(root) && PivotsAt(k, a) && Diagonal(k, a) >= 1.0
    ensures ProductsOf(Divided(k, a, Twice(root, Diagonal(k, a)))) == Quarter(k)
  {
    DividedQuarters(k, a, Twice(root, Diagonal(k, a)));
  }

  lemma RotationQuarters(m: Mat4, root: real -> real)
    requires SquareRoot(root) && Rotation(m)
    ensures ProductsOf(RawQuat(m, root)) == Quarter(Fourfold(m))
  {
    RotationRankOne(m, Chosen(m));
    ChosenLarge(m);
    QuartersByRoot(Fourfold(m), Chosen(m), root);
  }

  lemma RootOne(root: real -> real)
    requires SquareRoot(root)
    ensures root(1.0) == 1.0
  {
    var r := root(1.0);
    assert (r - 1.0) * (r + 1.0) == r * r - 1.0;
    ZeroFactor(r - 1.0, r + 1.0);
  }

  /** The quaternion's products make up the matrix they were read from. */
  lemma QuartersReturn(m: Mat4, q: Quat)
    requires Affine(m) && ProductsOf(q) == Quarter(Fourfold(m))
    ensures Norm(q) == 1.0 && MatFromQuat(q, m.r0.w, m.r1.w, m.r2.w) == m
  {
  }

  /** A rotation's quaternion is that rotation again. */
  lemma RigidReturns(m: Mat4, root: real -> real)
    requires SquareRoot(root) && Rigid(m)
    ensures MatFromQuat(QuatFromMat(m, root), m.r0.w, m.r1.w, m.r2.w) == m
  {
    RotationQuarters(m, root);
    QuartersReturn(m, RawQuat(m, root));
    RootOne(root);
  }

  /** What is written of a local matrix, and what a reader makes of it. */
  datatype Node = Node(x: real, y: real, z: real, rotation: Quat)

  function NodeOf(local: Mat4, root: real -> real): Node
    requires SquareRoot(root)
  {
    Node(local.r0.w, local.r1.w, local.r2.w, QuatFromMat(local, root))
  }

  function Posed(n: Node): Mat4 {
    MatFromQuat(n.rotation, n.x, n.y, n.z)
  }

  // ------------------------------------------------------ every unit quaternion turns

  lemma Gather(u: real, v: real, s: real, t: real, a: real, b: real, c: real, d: real, len: real)
    requires len > 0.0 && u * len == a && v * len == b && s * len == c && t * len == d
    requires a * a + b * b + c * c + d * d == len * len
    ensures u * u + v * v + s * s + t * t == 1.0
  {
    var n, p := u * u + v * v + s * s + t * t, Times(len, len);
    PositiveProduct(len, len);
    assert n * p == (u * len) * (u * len) + (v * len) * (v * len) + (s * len) * (s * len) + (t * len) * (t * len);
    ZeroFactor(n - 1.0, p);
  }

  lemma ScaledSum(a: real, b: real, c: real, d: real, len: real)
    requires len > 0.0 && a * a + b * b + c * c + d * d == len * len
    ensures (a / len) * (a / len) + (b / len) * (b / len) + (c / len) * (c / len) + (d / len) * (d / len) == 1.0
  {
    Ratio(a, len);
    Ratio(b, len);
    Ratio(c, len);
    Ratio(d, len);
    Gather(a / len, b / len, c / len, d / len, a, b, c, d, len);
  }

  lemma ScaledNorm(q: Quat, len: real)
    requires len > 0.0 && len * len == Norm(q)
    ensures Norm(Quat(q.x / len, q.y / len, q.z / len, q.w / len)) == 1.0
  {
    ScaledSum(q.x, q.y, q.z, q.w, len);
  }

  /** What `quat_from_mat` gives is a unit quaternion, whatever it is given. */
  lemma QuatUnit(m: Mat4, root: real -> real)
    requires SquareRoot(root)
    ensures Norm(QuatFromMat(m, root)) == 1.0
  {
    NormPositive(m, root);
    ScaledNorm(RawQuat(m, root), root(Norm(RawQuat(m, root))));
  }

  /** Entries of the matrix of any quaternion, each of degree two. */
  function Level(a: real, w: real, b: real, c: real): real {
    a * a + w * w - b * b - c * c
  }

  function Sum(a: real, b: real, c: real, w: real): real {
    2.0 * (a * b + c * w)
  }

  function Diff(a: real, b: real, c: real, w: real): real {
    2.0 * (a * b - c * w)
  }

  function Squares(x: real, y: real, z: real, w: real): real {
    x * x + y * y + z * z + w * w
  }

  /** Its rows: of equal length ... */
  lemma RowLength(x: real, y: real, z: real, w: real)
    ensures Level(x, w, y, z) * Level(x, w, y, z) + Diff(x, y, z, w) * Diff(x, y, z, w) + Sum(x, z, y, w) * Sum(x, z, y, w)
            == Squares(x, y, z, w) * Squares(x, y, z, w)
  {
  }

  /** ... perpendicular ... */
  lemma RowsPerpendicular(x: real, y: real, z: real, w: real)
    ensures Level(x, w, y, z) * Sum(x, y, z, w) + Diff(x, y, z, w) * Level(y, w, z, x) + Sum(x, z, y, w) * Diff(y, z, x, w) == 0.0
  {
    PerpendicularHalf(x, y, z, w);
    PerpendicularRest(x, y, z, w);
  }

  lemma PerpendicularHalf(x: real, y: real, z: real, w: real)
    ensures Level(x, w, y, z) * Sum(x, y, z, w) + Diff(x, y, z, w) * Level(y, w, z, x)
            == 4.0 * (x * y * w * w - x * y * z * z + z * w * x * x - z * w * y * y)
  {
  }

  lemma PerpendicularRest(x: real, y: real, z: real, w: real)
    ensures Sum(x, z, y, w) * Diff(y, z, x, w) == -4.0 * (x * y * w * w - x * y * z * z + z * w * x * x - z * w * y * y)
  {
  }

  /** ... and right-handed. */
  lemma RowsCross(x: real, y: real, z: real, w: real)
    ensures Diff(x, y, z, w) * Diff(y, z, x, w) - Sum(x, z, y, w) * Level(y, w, z, x) == Squares(x, y, z, w) * Diff(x, z, y, w)
  {
  }

  lemma RowsCrossMore(x: real, y: real, z: real, w: real)
    ensures Sum(x, z, y, w) * Sum(x, y, z, w) - Level(x, w, y, z) * Diff(y, z, x, w) == Squares(x, y, z, w) * Sum(y, z, x, w)
  {
  }

  lemma RowsCrossLast(x: real, y: real, z: real, w: real)
    ensures Level(x, w, y, z) * Level(y, w, z, x) - Diff(x, y, z, w) * Sum(x, y, z, w) == Squares(x, y, z, w) * Level(z, w, x, y)
  {
    var a, b, c, d := x * x, y * y, z * z, w * w;
    assert (a + d - b - c) * (b + d - a - c) == (d - c) * (d - c) - (a - b) * (a - b);
    assert Diff(x, y, z, w) * Sum(x, y, z, w) == 4.0 * (a * b) - 4.0 * (c * d);
    assert (a + b + c + d) * (c + d - a - b) == (c + d) * (c + d) - (a + b) * (a + b);
  }

  function RowNear(x: real, y: real, z: real, w: real): Row {
    Row(Level(x, w, y, z), Diff(x, y, z, w), Sum(x, z, y, w), 0.0)
  }

  function RowMid(x: real, y: real, z: real, w: real): Row {
    Row(Sum(x, y, z, w), Level(y, w, z, x), Diff(y, z, x, w), 0.0)
  }

  function RowFar(x: real, y: real, z: real, w: real): Row {
    Row(Diff(x, z, y, w), Sum(y, z, x, w), Level(z, w, x, y), 0.0)
  }

  lemma Commute(x: real, y: real, z: real, w: real)
    ensures Sum(y, x, z, w) == Sum(x, y, z, w) && Diff(y, x, z, w) == Diff(x, y, z, w) && Squares(y, z, x, w) == Squares(x, y, z, w)
  {
  }

  lemma UnitRow(a: real, b: real, c: real)
    requires a * a + b * b + c * c == 1.0
    ensures Dot(Row(a, b, c, 0.0), Row(a, b, c, 0.0)) == 1.0
    ensures Dot(Row(c, a, b, 0.0), Row(c, a, b, 0.0)) == 1.0
    ensures Dot(Row(b, c, a, 0.0), Row(b, c, a, 0.0)) == 1.0
  {
  }

  lemma Length(x: real, y: real, z: real, w: real)
    requires Squares(x, y, z, w) == 1.0
    ensures var a, b, c := Level(x, w, y, z), Diff(x, y, z, w), Sum(x, z, y, w);
            && Dot(Row(a, b, c, 0.0), Row(a, b, c, 0.0)) == 1.0
            && Dot(Row(c, a, b, 0.0), Row(c, a, b, 0.0)) == 1.0
            && Dot(Row(b, c, a, 0.0), Row(b, c, a, 0.0)) == 1.0
  {
    RowLength(x, y, z, w);
    UnitRow(Level(x, w, y, z), Diff(x, y, z, w), Sum(x, z, y, w));
  }

  lemma Lengths(x: real, y: real, z: real, w: real)
    requires Squares(x, y, z, w) == 1.0
    ensures Dot(RowNear(x, y, z, w), RowNear(x, y, z, w)) == 1.0
    ensures Dot(RowMid(x, y, z, w), RowMid(x, y, z, w)) == 1.0
    ensures Dot(RowFar(x, y, z, w), RowFar(x, y, z, w)) == 1.0
  {
    Commute(x, y, z, w);
    Commute(y, z, x, w);
    Commute(z, x, y, w);
    Length(x, y, z, w);
    Length(y, z, x, w);
    Length(z, x, y, w);
  }

  lemma FlatRows(a: real, b: real, c: real, d: real, e: real, f: real)
    requires a * d + b * e + c * f == 0.0
    ensures Dot(Row(a, b, c, 0.0), Row(d, e, f, 0.0)) == 0.0
    ensures Dot(Row(c, a, b, 0.0), Row(f, d, e, 0.0)) == 0.0
    ensures Dot(Row(b, c, a, 0.0), Row(e, f, d, 0.0)) == 0.0
  {
  }

  lemma Perpendicular(x: real, y: real, z: real, w: real)
    ensures Dot(RowNear(x, y, z, w), RowMid(x, y, z, w)) == 0.0
    ensures Dot(RowMid(x, y, z, w), RowFar(x, y, z, w)) == 0.0
    ensures Dot(RowFar(x, y, z, w), RowNear(x, y, z, w)) == 0.0
  {
    Commute(x, y, z, w);
    Commute(y, z, x, w);
    Commute(z, x, y, w);
    RowsPerpendicular(x, y, z, w);
    RowsPerpendicular(y, z, x, w);
    RowsPerpendicular(z, x, y, w);
    FlatRows(Level(x, w, y, z), Diff(x, y, z, w), Sum(x, z, y, w), Sum(x, y, z, w), Level(y, w, z, x), Diff(y, z, x, w));
    FlatRows(Level(y, w, z, x), Diff(y, z, x, w), Sum(y, x, z, w), Sum(y, z, x, w), Level(z, w, x, y), Diff(z, x, y, w));
    FlatRows(Level(z, w, x, y), Diff(z, x, y, w), Sum(z, y, x, w), Sum(z, x, y, w), Level(x, w, y, z), Diff(x, y, z, w));
  }

  lemma RightHanded(x: real, y: real, z: real, w: real)
    requires Squares(x, y, z, w) == 1.0
    ensures Cross(RowNear(x, y, z, w), RowMid(x, y, z, w)) == RowFar(x, y, z, w)
  {
    RowsCross(x, y, z, w);
    RowsCrossMore(x, y, z, w);
    RowsCrossLast(x, y, z, w);
  }

  lemma UnitLevel(x: real, y: real, z: real, w: real)
    requires Squares(x, y, z, w) == 1.0
    ensures 1.0 - 2.0 * (y * y + z * z) == Level(x, w, y, z)
  {
  }

  lemma UnitEntries(q: Quat, a: real, b: real, c: real)
    requires Norm(q) == 1.0
    ensures Turn(MatFromQuat(q, a, b, c)) ==
            Mat4(RowNear(q.x, q.y, q.z, q.w), RowMid(q.x, q.y, q.z, q.w), RowFar(q.x, q.y, q.z, q.w), IDENTITY.r3)
  {
    UnitLevel(q.x, q.y, q.z, q.w);
    UnitLevel(q.y, q.z, q.x, q.w);
    UnitLevel(q.z, q.x, q.y, q.w);
  }

  /** Every unit quaternion turns. */
  lemma UnitRotates(q: Quat, a: real, b: real, c: real)
    requires Norm(q) == 1.0
    ensures Rigid(MatFromQuat(q, a, b, c))
  {
    Lengths(q.x, q.y, q.z, q.w);
    Perpendicular(q.x, q.y, q.z, q.w);
    DotSwap(RowFar(q.x, q.y, q.z, q.w), RowNear(q.x, q.y, q.z, q.w));
    RightHanded(q.x, q.y, q.z, q.w);
    UnitEntries(q, a, b, c);
  }

  /** A matrix is kept as a translation and a quaternion exactly when it is rigid. */
  lemma NodeKeepsIff(m: Mat4, root: real -> real)
    requires SquareRoot(root)
    ensures Posed(NodeOf(m, root)) == m <==> Rigid(m)
  {
    QuatUnit(m, root);
    UnitRotates(QuatFromMat(m, root), m.r0.w, m.r1.w, m.r2.w);
    if Rigid(m) { RigidReturns(m, root); }
  }

  // -------------------------------------------------------------------- motions

  /** The minors of a product of a 2x3 and a 3x2 matrix. */
  lemma Binet(a: real, b: real, c: real, d: real, e: real, f: real, u: real, v: real, w: real, x: real, y: real, z: real)
    ensures (a * u + b * v + c * w) * (d * x + e * y + f * z) - (a * x + b * y + c * z) * (d * u + e * v + f * w)
            == (a * e - b * d) * (u * y - v * x) + (c * d - a * f) * (w * x - u * z) + (b * f - c * e) * (v * z - w * y)
  {
  }

  function Flat(a: Row, u: real, v: real, w: real): real {
    a.x * u + a.y * v + a.z * w
  }

  lemma FlatMul(a: Row, t: Mat4)
    requires a.w == 0.0 && t == Turn(t)
    ensures RowMul(a, t) == Row(Flat(a, t.r0.x, t.r1.x, t.r2.x), Flat(a, t.r0.y, t.r1.y, t.r2.y), Flat(a, t.r0.z, t.r1.z, t.r2.z), 0.0)
  {
  }

  lemma MinorSwap(a: real, b: real, c: real, d: real)
    ensures Minor(a, b, c, d) == Minor(a, b, d, c)
  {
  }

  lemma FlatTimes(a: Row, u: real, v: real, w: real)
    ensures Flat(a, u, v, w) == Times(a.x, u) + Times(a.y, v) + Times(a.z, w)
  {
  }

  lemma SameProduct(p: real, q: real, r: real, s: real)
    requires p == r && q == s
    ensures p * q == r * s
  {
  }

  /** The same, every sum and minor by a name. */
  lemma NamedBinet(a: real, b: real, c: real, d: real, e: real, f: real, u: real, v: real, w: real, x: real, y: real, z: real,
    p: real, q: real, r: real, s: real, g: real, h: real, i: real, k: real, l: real, m: real)
    requires p == a * u + b * v + c * w && q == d * x + e * y + f * z
    requires r == a * x + b * y + c * z && s == d * u + e * v + f * w
    requires g == b * f - c * e && h == c * d - a * f && i == a * e - b * d
    requires k == v * z - w * y && l == w * x - u * z && m == u * y - v * x
    ensures p * q - r * s == i * m + h * l + g * k
  {
    Binet(a, b, c, d, e, f, u, v, w, x, y, z);
    SameProduct(p, q, a * u + b * v + c * w, d * x + e * y + f * z);
    SameProduct(r, s, a * x + b * y + c * z, d * u + e * v + f * w);
    SameProduct(g, k, b * f - c * e, v * z - w * y);
    SameProduct(h, l, c * d - a * f, w * x - u * z);
    SameProduct(i, m, a * e - b * d, u * y - v * x);
  }

  lemma AsMinor(p: real, q: real, r: real, s: real, g: real, h: real, i: real, k: real, l: real, m: real)
    requires p * q - r * s == i * m + h * l + g * k
    ensures Minor(p, q, r, s) == Times(i, m) + Times(h, l) + Times(g, k)
  {
  }

  lemma FlatBinet(a: Row, b: Row, u: real, v: real, w: real, x: real, y: real, z: real)
    ensures Minor(Flat(a, u, v, w), Flat(b, x, y, z), Flat(a, x, y, z), Flat(b, u, v, w))
            == Times(Minor(a.x, b.y, a.y, b.x), Minor(u, y, v, x)) + Times(Minor(a.z, b.x, a.x, b.z), Minor(w, x, u, z))
               + Times(Minor(a.y, b.z, a.z, b.y), Minor(v, z, w, y))
  {
    NamedBinet(a.x, a.y, a.z, b.x, b.y, b.z, u, v, w, x, y, z,
               Flat(a, u, v, w), Flat(b, x, y, z), Flat(a, x, y, z), Flat(b, u, v, w),
               Minor(a.y, b.z, a.z, b.y), Minor(a.z, b.x, a.x, b.z), Minor(a.x, b.y, a.y, b.x),
               Minor(v, z, w, y), Minor(w, x, u, z), Minor(u, y, v, x));
    AsMinor(Flat(a, u, v, w), Flat(b, x, y, z), Flat(a, x, y, z), Flat(b, u, v, w),
            Minor(a.y, b.z, a.z, b.y), Minor(a.z, b.x, a.x, b.z), Minor(a.x, b.y, a.y, b.x),
            Minor(v, z, w, y), Minor(w, x, u, z), Minor(u, y, v, x));
  }

  /** One entry: u, v, w and x, y, z are two columns of a rotation, and k, l, m the third. */
  lemma EntryTurned(a: Row, b: Row, u: real, v: real, w: real, x: real, y: real, z: real, k: real, l: real, m: real)
    requires Minor(u, y, x, v) == m && Minor(v, z, y, w) == k && Minor(w, x, z, u) == l
    ensures Minor(Flat(a, u, v, w), Flat(b, x, y, z), Flat(a, x, y, z), Flat(b, u, v, w)) == Flat(Cross(a, b), k, l, m)
  {
    FlatBinet(a, b, u, v, w, x, y, z);
    FlatTimes(Cross(a, b), k, l, m);
    MinorSwap(u, y, x, v);
    MinorSwap(v, z, y, w);
    MinorSwap(w, x, z, u);
  }

  /** Turning a cross product crosses the turned. */
  lemma CrossTurned(a: Row, b: Row, t: Mat4)
    requires a.w == b.w == 0.0 && t == Turn(t) && Rotation(t)
    ensures Cross(RowMul(a, t), RowMul(b, t)) == RowMul(Cross(a, b), t)
  {
    CrossBack(t.r0, t.r1);
    FlatMul(a, t);
    FlatMul(b, t);
    FlatMul(Cross(a, b), t);
    EntryTurned(a, b, t.r0.y, t.r1.y, t.r2.y, t.r0.z, t.r1.z, t.r2.z, t.r0.x, t.r1.x, t.r2.x);
    EntryTurned(a, b, t.r0.z, t.r1.z, t.r2.z, t.r0.x, t.r1.x, t.r2.x, t.r0.y, t.r1.y, t.r2.y);
    EntryTurned(a, b, t.r0.x, t.r1.x, t.r2.x, t.r0.y, t.r1.y, t.r2.y, t.r0.z, t.r1.z, t.r2.z);
  }

  lemma Meets(t: Mat4, a: Row, e: Row)
    requires Dot(t.r0, a) == e.x && Dot(t.r1, a) == e.y && Dot(t.r2, a) == e.z && Dot(t.r3, a) == e.w
    ensures MulColumn(t, a) == e
  {
  }

  lemma RowsMeet(t: Mat4)
    requires t == Turn(t)
    requires Dot(t.r0, t.r0) == Dot(t.r1, t.r1) == Dot(t.r2, t.r2) == 1.0
    requires Dot(t.r0, t.r1) == Dot(t.r0, t.r2) == Dot(t.r1, t.r2) == 0.0
    ensures MulColumn(t, t.r0) == IDENTITY.r0 && MulColumn(t, t.r1) == IDENTITY.r1
    ensures MulColumn(t, t.r2) == IDENTITY.r2 && MulColumn(t, t.r3) == IDENTITY.r3
  {
    DotSwap(t.r0, t.r1);
    DotSwap(t.r0, t.r2);
    DotSwap(t.r1, t.r2);
    DotLast(t.r0);
    DotLast(t.r1);
    DotLast(t.r2);
    DotLast(t.r3);
    Meets(t, t.r0, IDENTITY.r0);
    Meets(t, t.r1, IDENTITY.r1);
    Meets(t, t.r2, IDENTITY.r2);
    Meets(t, t.r3, IDENTITY.r3);
  }

  lemma DotUnits(a: Row)
    ensures Row(Dot(a, IDENTITY.r0), Dot(a, IDENTITY.r1), Dot(a, IDENTITY.r2), Dot(a, IDENTITY.r3)) == a
  {
  }

  /** Turning keeps products. */
  lemma DotTurned(a: Row, b: Row, t: Mat4)
    requires Rotation(t) && t == Turn(t)
    ensures Dot(RowMul(a, t), RowMul(b, t)) == Dot(a, b)
  {
    var c := RowMul(b, t);
    RowsMeet(t);
    EntryAssoc(a, t, c);
    EntryAssoc(b, t, t.r0);
    EntryAssoc(b, t, t.r1);
    EntryAssoc(b, t, t.r2);
    EntryAssoc(b, t, t.r3);
    DotUnits(b);
    DotSwap(c, t.r0);
    DotSwap(c, t.r1);
    DotSwap(c, t.r2);
    DotSwap(c, t.r3);
  }

  lemma TurnTwice(s: Mat4, t: Mat4)
    requires Rotation(s) && s == Turn(s) && Rotation(t) && t == Turn(t)
    ensures Rotation(MatMul(s, t)) && MatMul(s, t) == Turn(MatMul(s, t))
  {
    FlatMul(s.r0, t);
    FlatMul(s.r1, t);
    FlatMul(s.r2, t);
    LastRow(t);
    DotTurned(s.r0, s.r0, t);
    DotTurned(s.r1, s.r1, t);
    DotTurned(s.r2, s.r2, t);
    DotTurned(s.r0, s.r1, t);
    DotTurned(s.r0, s.r2, t);
    DotTurned(s.r1, s.r2, t);
    CrossTurned(s.r0, s.r1, t);
  }

  lemma LastRow(m: Mat4)
    ensures RowMul(IDENTITY.r3, m) == m.r3
  {
  }

  lemma TurnedRow(a: Row, b: Mat4)
    requires Affine(b)
    ensures RowMul(a, b).(w := 0.0) == RowMul(a.(w := 0.0), Turn(b))
  {
    TurnedEntry(a, Column(b, 0), Column(Turn(b), 0));
    TurnedEntry(a, Column(b, 1), Column(Turn(b), 1));
    TurnedEntry(a, Column(b, 2), Column(Turn(b), 2));
    DotUnits(a.(w := 0.0));
  }

  lemma TurnedEntry(a: Row, c: Row, d: Row)
    requires c == d && c.w == 0.0
    ensures Dot(a, c) == Dot(a.(w := 0.0), d)
  {
  }

  lemma TurnOfProduct(a: Mat4, b: Mat4)
    requires Affine(a) && Affine(b)
    ensures Turn(MatMul(a, b)) == MatMul(Turn(a), Turn(b)) && Affine(MatMul(a, b))
  {
    TurnedRow(a.r0, b);
    TurnedRow(a.r1, b);
    TurnedRow(a.r2, b);
    LastRow(b);
    LastRow(Turn(b));
  }

  lemma DotsOfUnits(a: real, b: real, c: real, d: real, e: real, f: real, g: real, h: real, i: real)
    requires Units(a, b, c, d, e, f, g, h, i)
    ensures var p, q, r := Row(a, b, c, 0.0), Row(d, e, f, 0.0), Row(g, h, i, 0.0);
            && Dot(p, p) == Dot(q, q) == Dot(r, r) == 1.0 && Dot(p, q) == Dot(p, r) == Dot(q, r) == 0.0
  {
  }

  lemma CrossOfColumns(a: real, b: real, c: real, d: real, e: real, f: real, g: real, h: real, i: real)
    requires Crossed(a, b, c, d, e, f, g, h, i)
    ensures Cross(Row(a, d, g, 0.0), Row(b, e, h, 0.0)) == Row(c, f, i, 0.0)
  {
  }

  lemma TurnedBack(t: Mat4)
    requires Rotation(t) && t == Turn(t)
    ensures Rotation(Transpose(t)) && Transpose(t) == Turn(Transpose(t))
  {
    RotationTurns(t);
    DotsOfUnits(t.r0.x, t.r1.x, t.r2.x, t.r0.y, t.r1.y, t.r2.y, t.r0.z, t.r1.z, t.r2.z);
    CrossOfColumns(t.r0.x, t.r0.y, t.r0.z, t.r1.x, t.r1.y, t.r1.z, t.r2.x, t.r2.y, t.r2.z);
  }

  /** Rigid motions make a rigid motion ... */
  lemma RigidProduct(a: Mat4, b: Mat4)
    requires Rigid(a) && Rigid(b)
    ensures Rigid(MatMul(a, b))
  {
    TurnOfProduct(a, b);
    TurnTwice(Turn(a), Turn(b));
  }

  lemma TimesIdentity(m: Mat4)
    ensures MatMul(IDENTITY, m) == m
  {
  }

  lemma TurnBetween(t: Mat4, l: Mat4, b: Mat4)
    requires Rotation(t) && t == Turn(t) && Rotation(b) && b == Turn(b) && MatMul(t, l) == b
    ensures Rotation(l)
  {
    var u := Transpose(t);
    TurnedBack(t);
    TurnTwice(u, b);
    assert MatMul(u, t) == IDENTITY by { RotationInverse(t); }
    MatMulAssoc(u, t, l);
    TimesIdentity(l);
    assert MatMul(u, b) == l;
  }

  lemma TurnOnce(m: Mat4)
    ensures Turn(Turn(m)) == Turn(m) && (Rotation(Turn(m)) <==> Rotation(m))
  {
  }

  /** ... and so is what leads from one to another. */
  lemma RigidBetween(a: Mat4, local: Mat4, b: Mat4)
    requires Rigid(a) && Rigid(b) && MatMul(a, local) == b
    ensures Rigid(local)
  {
    LastRow(local);
    TurnOfProduct(a, local);
    TurnOnce(a);
    TurnOnce(b);
    TurnOnce(local);
    TurnBetween(Turn(a), Turn(local), Turn(b));
  }

  // ------------------------------------------------------------------- skeletons

  function Nodes(locals: seq<Mat4>, root: real -> real): (nodes: seq<Mat4>)
    requires SquareRoot(root)
    ensures |nodes| == |locals| && forall i :: 0 <= i < |nodes| ==> nodes[i] == Posed(NodeOf(locals[i], root))
  {
    if locals == [] then [] else
      Nodes(locals[..|locals| - 1], root) + [Posed(NodeOf(locals[|locals| - 1], root))]
  }

  lemma {:induction false} NodesPoseRigid(bones: seq<Bone>, locals: seq<Mat4>, root: real -> real, i: nat)
    requires SquareRoot(root) && ParentsFirst(bones) && i < |bones| == |locals|
    ensures Rigid(World(bones, Nodes(locals, root), i))
  {
    QuatUnit(locals[i], root);
    UnitRotates(QuatFromMat(locals[i], root), locals[i].r0.w, locals[i].r1.w, locals[i].r2.w);
    if bones[i].parent.Some? {
      NodesPoseRigid(bones, locals, root, bones[i].parent.value);
      RigidProduct(World(bones, Nodes(locals, root), bones[i].parent.value), Nodes(locals, root)[i]);
    }
  }

  lemma {:induction false} LocalsRigid(bones: seq<Bone>, locals: seq<Mat4>, i: nat)
    requires ParentsFirst(bones) && i < |bones| == |locals| && PosesBinds(bones, locals)
    requires forall j :: 0 <= j < |bones| ==> Rigid(Bind(bones[j]))
    ensures Rigid(locals[i])
  {
    if bones[i].parent.Some? {
      var p := bones[i].parent.value;
      assert World(bones, locals, i) == MatMul(World(bones, locals, p), locals[i]);
      RigidBetween(Bind(bones[p]), locals[i], Bind(bones[i]));
    }
  }

  /** The nodes of a file pose every bone at its bind matrix exactly when every bone's
      CFrame is a rotation and a position. */
  lemma {:induction false} PosesKeptIff(bones: seq<Bone>, locals: seq<Mat4>, root: real -> real)
    requires SquareRoot(root) && ParentsFirst(bones) && |locals| == |bones| && PosesBinds(bones, locals)
    ensures PosesBinds(bones, Nodes(locals, root)) <==> forall i :: 0 <= i < |bones| ==> Rigid(Bind(bones[i]))
  {
    var nodes := Nodes(locals, root);
    if PosesBinds(bones, nodes) {
      forall i | 0 <= i < |bones| ensures Rigid(Bind(bones[i])) {
        NodesPoseRigid(bones, locals, root, i);
        assert World(bones, nodes, i) == Bind(bones[i]);
      }
    }
    if forall i :: 0 <= i < |bones| ==> Rigid(Bind(bones[i])) {
      forall i | 0 <= i < |bones| ensures nodes[i] == locals[i] {
        LocalsRigid(bones, locals, i);
        NodeKeepsIff(locals[i], root);
      }
      assert nodes == locals;
    }
  }

  const STRETCHED := Bone(None, CFrame(0.0, 0.0, 0.0, 2.0, 0.0, 0.0, 0.0, 2.0, 0.0, 0.0, 0.0, 2.0))

  /** A bone twice as large is written and comes back in another pose. */
  lemma StretchedBoneLost(root: real -> real)
    requires SquareRoot(root)
    ensures ParentsFirst([STRETCHED]) && PosesBinds([STRETCHED], [Bind(STRETCHED)])
    ensures !PosesBinds([STRETCHED], Nodes([Bind(STRETCHED)], root))
  {
    var t := Turn(Bind(STRETCHED));
    assert Dot(t.r0, t.r0) == 4.0;
    assert !Rigid(Bind([STRETCHED][0]));
    PosesKeptIff([STRETCHED], [Bind(STRETCHED)], root);
  }

  /** In the bind pose a skinned reader of the file sees every bone undeformed exactly
      when every bone is rigid. */
  lemma {:induction false} SkeletonKeptIff(bones: seq<Bone>, locals: seq<Mat4>, ibms: seq<Mat4>, root: real -> real)
    requires SquareRoot(root) && ParentsFirst(bones) && |ibms| == |locals| == |bones| && PosesBinds(bones, locals)
    requires forall i :: 0 <= i < |bones| ==> !Singular(bones[i]) && MatMul(ibms[i], Bind(bones[i])) == IDENTITY
    ensures (forall i :: 0 <= i < |bones| ==> MatMul(World(bones, Nodes(locals, root), i), ibms[i]) == IDENTITY)
            <==> forall i :: 0 <= i < |bones| ==> Rigid(Bind(bones[i]))
  {
    var nodes := Nodes(locals, root);
    PosesKeptIff(bones, locals, root);
    forall i | 0 <= i < |bones|
      ensures MatMul(World(bones, nodes, i), ibms[i]) == IDENTITY <==> World(bones, nodes, i) == Bind(bones[i])
    {
      UndoneIff(World(bones, nodes, i), ibms[i], Bind(bones[i]));
    }
  }

  lemma UndoneIff(world: Mat4, ibm: Mat4, bind: Mat4)
    requires MatInverse(bind).Some? && MatMul(ibm, bind) == IDENTITY
    ensures MatMul(world, ibm) == IDENTITY <==> world == bind
  {
    InverseUnique(bind, ibm);
    InverseTwoSided(bind);
    if MatMul(world, ibm) == IDENTITY {
      MatMulAssoc(world, ibm, bind);
      TimesIdentity(bind);
      IdentityTimes(world);
    }
  }

  lemma IdentityTimes(m: Mat4)
    ensures MatMul(m, IDENTITY) == m
  {
  }

  // -------------------------------------------------------------------- normals

  /** A transformed normal is a unit vector, unless it is as good as zero. */
  lemma NormalIsUnit(m: Mat4, n: Row, root: real -> real)
    requires SquareRoot(root) && MatInverse(m).Some?
    requires var v := TurnedNormal(MatInverse(m).value, n); root(Dot(v, v)) > EPSILON
    ensures Dot(TransformNormal(m, n, root), TransformNormal(m, n, root)) == 1.0
  {
    var v := TurnedNormal(MatInverse(m).value, n);
    UnitVector(v, root);
  }

  lemma UnitVector(v: Row, root: real -> real)
    requires SquareRoot(root) && root(Dot(v, v)) > EPSILON
    ensures Dot(Normalize(v, root), Normalize(v, root)) == 1.0
  {
    var len := root(Dot(v, v));
    DotNotNegative(v);
    assert len * len == Dot(v, v);
    ScaledSum(v.x, v.y, v.z, v.w, len);
  }

  lemma DotNotNegative(v: Row)
    ensures Dot(v, v) >= 0.0
  {
    Squared(v.x);
    Squared(v.y);
    Squared(v.z);
    Squared(v.w);
  }
}
