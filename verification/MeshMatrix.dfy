/** The matrix helpers of rodeo-client/src/runtime/mesh.rs and the skeleton they export,
    over real numbers. The source stores columns; a Mat4 here lists the same entries by
    rows. */
module MeshMatrix {
  import opened Options

  datatype Row = Row(x: real, y: real, z: real, w: real)

  datatype Mat4 = Mat4(r0: Row, r1: Row, r2: Row, r3: Row)

  const IDENTITY := Mat4(Row(1.0, 0.0, 0.0, 0.0), Row(0.0, 1.0, 0.0, 0.0), Row(0.0, 0.0, 1.0, 0.0), Row(0.0, 0.0, 0.0, 1.0))

  /** The threshold below which a determinant counts as zero. */
  const EPSILON := 0.000000000001

  function Dot(a: Row, b: Row): real {
    a.x * b.x + a.y * b.y + a.z * b.z + a.w * b.w
  }

  function RowMul(a: Row, b: Mat4): Row {
    Row(Dot(a, Column(b, 0)), Dot(a, Column(b, 1)), Dot(a, Column(b, 2)), Dot(a, Column(b, 3)))
  }

  function MatMul(a: Mat4, b: Mat4): Mat4 {
    Mat4(RowMul(a.r0, b), RowMul(a.r1, b), RowMul(a.r2, b), RowMul(a.r3, b))
  }

  /** A product under a name of its own, so that equals may be put for equals in it. */
  function Times(a: real, b: real): real {
    a * b
  }

  function ScaleRow(a: Row, d: real): Row {
    Row(Times(a.x, d), Times(a.y, d), Times(a.z, d), Times(a.w, d))
  }

  function Scale(m: Mat4, d: real): Mat4 {
    Mat4(ScaleRow(m.r0, d), ScaleRow(m.r1, d), ScaleRow(m.r2, d), ScaleRow(m.r3, d))
  }

  /** The 2x2 minors of two rows, in the order s0..s5 (and c0..c5) of `mat_inverse`. */
  datatype Minors = Minors(m0: real, m1: real, m2: real, m3: real, m4: real, m5: real)

  function Minor(a: real, b: real, c: real, d: real): real {
    a * b - c * d
  }

  function MinorsOf(p: Row, q: Row): Minors {
    Minors(Minor(p.x, q.y, q.x, p.y), Minor(p.x, q.z, q.x, p.z), Minor(p.x, q.w, q.x, p.w),
           Minor(p.y, q.z, q.y, p.z), Minor(p.y, q.w, q.y, p.w), Minor(p.z, q.w, q.z, p.w))
  }

  function Laplace(s: Minors, c: Minors): real {
    s.m0 * c.m5 - s.m1 * c.m4 + s.m2 * c.m3 + s.m3 * c.m2 - s.m4 * c.m1 + s.m5 * c.m0
  }

  function Det(m: Mat4): real {
    Laplace(MinorsOf(m.r0, m.r1), MinorsOf(m.r2, m.r3))
  }

  function Expand(a: real, u: real, b: real, v: real, c: real, w: real): real {
    a * u - b * v + c * w
  }

  /** The cofactors of one row q against the minors c of two other rows. */
  function Cofactors(q: Row, c: Minors): Row {
    Row(Expand(q.y, c.m5, q.z, c.m4, q.w, c.m3), -Expand(q.x, c.m5, q.z, c.m2, q.w, c.m1),
        Expand(q.x, c.m4, q.y, c.m2, q.w, c.m0), -Expand(q.x, c.m3, q.y, c.m1, q.z, c.m0))
  }

  function Negate(a: Row): Row {
    Row(-a.x, -a.y, -a.z, -a.w)
  }

  function Transpose(m: Mat4): Mat4 {
    Mat4(Row(m.r0.x, m.r1.x, m.r2.x, m.r3.x), Row(m.r0.y, m.r1.y, m.r2.y, m.r3.y),
         Row(m.r0.z, m.r1.z, m.r2.z, m.r3.z), Row(m.r0.w, m.r1.w, m.r2.w, m.r3.w))
  }

  /** The sixteen signed cofactors `mat_inverse` sets, before the division: column k of
      the result is one row of cofactors. */
  function Adjugate(m: Mat4): Mat4 {
    var s, c := MinorsOf(m.r0, m.r1), MinorsOf(m.r2, m.r3);
    Transpose(Mat4(Cofactors(m.r1, c), Negate(Cofactors(m.r0, c)), Cofactors(m.r3, s), Negate(Cofactors(m.r2, s))))
  }

  function Abs(x: real): real {
    if x < 0.0 then -x else x
  }

  function MatInverse(m: Mat4): Option<Mat4> {
    var det := Det(m);
    if Abs(det) < EPSILON then None else Some(Scale(Adjugate(m), 1.0 / det))
  }

  // ---------------------------------------------------------------- matrix algebra

  function Column(m: Mat4, k: int): Row
    requires 0 <= k < 4
  {
    if k == 0 then Row(m.r0.x, m.r1.x, m.r2.x, m.r3.x)
    else if k == 1 then Row(m.r0.y, m.r1.y, m.r2.y, m.r3.y)
    else if k == 2 then Row(m.r0.z, m.r1.z, m.r2.z, m.r3.z)
    else Row(m.r0.w, m.r1.w, m.r2.w, m.r3.w)
  }

  /** b times a column. */
  function MulColumn(b: Mat4, c: Row): Row {
    Row(Dot(b.r0, c), Dot(b.r1, c), Dot(b.r2, c), Dot(b.r3, c))
  }

  /** The sixteen products behind one entry of a product of three matrices. */
  function Sixteen(a: Row, b: Mat4, c: Row): real {
    a.x * b.r0.x * c.x + a.x * b.r0.y * c.y + a.x * b.r0.z * c.z + a.x * b.r0.w * c.w + a.y * b.r1.x * c.x + a.y * b.r1.y * c.y + a.y * b.r1.z * c.z + a.y * b.r1.w * c.w + a.z * b.r2.x * c.x + a.z * b.r2.y * c.y + a.z * b.r2.z * c.z + a.z * b.r2.w * c.w + a.w * b.r3.x * c.x + a.w * b.r3.y * c.y + a.w * b.r3.z * c.z + a.w * b.r3.w * c.w
  }

  lemma EntryLeft(a: Row, b: Mat4, c: Row)
    ensures Dot(RowMul(a, b), c) == Sixteen(a, b, c)
  {
    var ab := RowMul(a, b);
  }

  lemma EntryRight(a: Row, b: Mat4, c: Row)
    ensures Dot(a, MulColumn(b, c)) == Sixteen(a, b, c)
  {
    var bc := MulColumn(b, c);
  }

  lemma EntryAssoc(a: Row, b: Mat4, c: Row)
    ensures Dot(RowMul(a, b), c) == Dot(a, MulColumn(b, c))
  {
    EntryLeft(a, b, c);
    EntryRight(a, b, c);
  }

  lemma RowMulAssoc(a: Row, b: Mat4, c: Mat4)
    ensures RowMul(RowMul(a, b), c) == RowMul(a, MatMul(b, c))
  {
    EntryAssoc(a, b, Column(c, 0));
    EntryAssoc(a, b, Column(c, 1));
    EntryAssoc(a, b, Column(c, 2));
    EntryAssoc(a, b, Column(c, 3));
  }

  lemma MatMulAssoc(a: Mat4, b: Mat4, c: Mat4)
    ensures MatMul(MatMul(a, b), c) == MatMul(a, MatMul(b, c))
  {
    RowMulAssoc(a.r0, b, c);
    RowMulAssoc(a.r1, b, c);
    RowMulAssoc(a.r2, b, c);
    RowMulAssoc(a.r3, b, c);
  }

  lemma DotScale(a: Row, b: Row, d: real)
    ensures Dot(a, ScaleRow(b, d)) == Times(Dot(a, b), d)
    ensures Dot(ScaleRow(a, d), b) == Times(Dot(a, b), d)
  {
    var sa, sb := ScaleRow(a, d), ScaleRow(b, d);
  }

  lemma RowMulScale(a: Row, m: Mat4, d: real)
    ensures RowMul(a, Scale(m, d)) == ScaleRow(RowMul(a, m), d)
  {
    DotScale(a, Column(m, 0), d);
    DotScale(a, Column(m, 1), d);
    DotScale(a, Column(m, 2), d);
    DotScale(a, Column(m, 3), d);
  }

  lemma ScaledRowMul(a: Row, m: Mat4, d: real)
    ensures RowMul(ScaleRow(a, d), m) == ScaleRow(RowMul(a, m), d)
  {
    DotScale(a, Column(m, 0), d);
    DotScale(a, Column(m, 1), d);
    DotScale(a, Column(m, 2), d);
    DotScale(a, Column(m, 3), d);
  }

  /** The twelve products of an expansion along x. */
  function Twelve(x: Row, q: Row, c: Minors): real {
    x.x * q.y * c.m5 - x.x * q.z * c.m4 + x.x * q.w * c.m3 - x.y * q.x * c.m5 + x.y * q.z * c.m2 - x.y * q.w * c.m1
    + x.z * q.x * c.m4 - x.z * q.y * c.m2 + x.z * q.w * c.m0 - x.w * q.x * c.m3 + x.w * q.y * c.m1 - x.w * q.z * c.m0
  }

  lemma CofactorsExpand(x: Row, q: Row, c: Minors)
    ensures Dot(x, Cofactors(q, c)) == Twelve(x, q, c)
  {
    var k := Cofactors(q, c);
  }

  /** Laplace expansion along a row: the cofactors of q read as a determinant of x, q
      and the two rows behind c. */
  lemma DotCofactors(x: Row, q: Row, c: Minors)
    ensures Dot(x, Cofactors(q, c)) == Laplace(MinorsOf(x, q), c)
  {
    CofactorsExpand(x, q, c);
  }

  /** Swapping the rows of one half flips the sign; equal rows give zero. */
  lemma LaplaceSwap(p: Row, q: Row, c: Minors)
    ensures Laplace(MinorsOf(q, p), c) == -Laplace(MinorsOf(p, q), c)
    ensures Laplace(MinorsOf(p, p), c) == 0.0
  {
  }

  /** A 3x3 determinant with two rows equal, expanded along one of them, vanishes. */
  lemma ExpandRepeated(a: real, b: real, c: real, p: real, q: real, r: real)
    ensures Expand(a, Minor(b, r, q, c), b, Minor(a, r, p, c), c, Minor(a, q, p, b)) == 0.0
  {
  }

  /** A determinant with a row of each half equal vanishes. */
  lemma SharedRow(x: Row, q: Row, v: Row)
    ensures Laplace(MinorsOf(q, x), MinorsOf(x, v)) == 0.0
    ensures Laplace(MinorsOf(x, q), MinorsOf(x, v)) == 0.0
    ensures Laplace(MinorsOf(x, q), MinorsOf(v, x)) == 0.0
  {
    var c := MinorsOf(x, v);
    ExpandRepeated(x.y, x.z, x.w, v.y, v.z, v.w);
    ExpandRepeated(x.x, x.z, x.w, v.x, v.z, v.w);
    ExpandRepeated(x.x, x.y, x.w, v.x, v.y, v.w);
    ExpandRepeated(x.x, x.y, x.z, v.x, v.y, v.z);
    assert Cofactors(x, c) == Row(0.0, 0.0, 0.0, 0.0);
    DotCofactors(q, x, c);
    LaplaceSwap(q, x, c);
    LaplaceSwap(x, v, MinorsOf(x, q));
  }

  lemma DotNegate(a: Row, b: Row)
    ensures Dot(a, Negate(b)) == -Dot(a, b)
  {
  }

  /** A row against the adjugate: four determinants with that row put in the place of
      each row in turn. */
  lemma RowAdjugate(x: Row, m: Mat4)
    ensures var s, c := MinorsOf(m.r0, m.r1), MinorsOf(m.r2, m.r3);
            RowMul(x, Adjugate(m)) == Row(Laplace(MinorsOf(x, m.r1), c), -Laplace(MinorsOf(x, m.r0), c),
                                          Laplace(MinorsOf(x, m.r3), s), -Laplace(MinorsOf(x, m.r2), s))
  {
    var s, c := MinorsOf(m.r0, m.r1), MinorsOf(m.r2, m.r3);
    DotCofactors(x, m.r1, c);
    DotCofactors(x, m.r0, c);
    DotCofactors(x, m.r3, s);
    DotCofactors(x, m.r2, s);
    DotNegate(x, Cofactors(m.r0, c));
    DotNegate(x, Cofactors(m.r2, s));
  }

  lemma MatAdjugate(m: Mat4)
    ensures MatMul(m, Adjugate(m)) == Scale(IDENTITY, Det(m))
  {
    var s, c := MinorsOf(m.r0, m.r1), MinorsOf(m.r2, m.r3);
    RowAdjugate(m.r0, m);
    RowAdjugate(m.r1, m);
    RowAdjugate(m.r2, m);
    RowAdjugate(m.r3, m);
    LaplaceSwap(m.r0, m.r1, c);
    LaplaceSwap(m.r1, m.r0, c);
    LaplaceSwap(m.r2, m.r3, s);
    LaplaceSwap(m.r3, m.r2, s);
    SharedRow(m.r0, m.r3, m.r1);
    SharedRow(m.r0, m.r2, m.r1);
    SharedRow(m.r1, m.r3, m.r0);
    SharedRow(m.r1, m.r2, m.r0);
    SharedRow(m.r2, m.r1, m.r3);
    SharedRow(m.r2, m.r0, m.r3);
    SharedRow(m.r3, m.r1, m.r2);
    SharedRow(m.r3, m.r0, m.r2);
  }

  // ------------------------------------------------------------- the other side

  function Det3(a: real, b: real, c: real, d: real, e: real, f: real, g: real, h: real, i: real): real {
    a * (e * i - f * h) - b * (d * i - f * g) + c * (d * h - e * g)
  }

  lemma Det3Transpose(a: real, b: real, c: real, d: real, e: real, f: real, g: real, h: real, i: real)
    ensures Det3(a, b, c, d, e, f, g, h, i) == Det3(a, d, g, b, e, h, c, f, i)
  {
  }

  /** The two shapes in which the source expands a 3x3 determinant: along its first row,
      and along its last. */
  lemma ExpandFirst(a: real, b: real, c: real, d: real, e: real, f: real, g: real, h: real, i: real)
    ensures Expand(a, Minor(e, i, h, f), b, Minor(d, i, g, f), c, Minor(d, h, g, e)) == Det3(a, b, c, d, e, f, g, h, i)
    ensures Expand(g, Minor(b, f, e, c), h, Minor(a, f, d, c), i, Minor(a, e, d, b)) == Det3(a, b, c, d, e, f, g, h, i)
  {
  }

  /** The adjugate of the textbook: entry (r, k) is the signed determinant of m without
      row k and column r. */
  function CofactorTable(m: Mat4): Mat4 {
    Mat4(
      Row(Det3(m.r1.y, m.r1.z, m.r1.w, m.r2.y, m.r2.z, m.r2.w, m.r3.y, m.r3.z, m.r3.w),
          -Det3(m.r0.y, m.r0.z, m.r0.w, m.r2.y, m.r2.z, m.r2.w, m.r3.y, m.r3.z, m.r3.w),
          Det3(m.r0.y, m.r0.z, m.r0.w, m.r1.y, m.r1.z, m.r1.w, m.r3.y, m.r3.z, m.r3.w),
          -Det3(m.r0.y, m.r0.z, m.r0.w, m.r1.y, m.r1.z, m.r1.w, m.r2.y, m.r2.z, m.r2.w)),
      Row(-Det3(m.r1.x, m.r1.z, m.r1.w, m.r2.x, m.r2.z, m.r2.w, m.r3.x, m.r3.z, m.r3.w),
          Det3(m.r0.x, m.r0.z, m.r0.w, m.r2.x, m.r2.z, m.r2.w, m.r3.x, m.r3.z, m.r3.w),
          -Det3(m.r0.x, m.r0.z, m.r0.w, m.r1.x, m.r1.z, m.r1.w, m.r3.x, m.r3.z, m.r3.w),
          Det3(m.r0.x, m.r0.z, m.r0.w, m.r1.x, m.r1.z, m.r1.w, m.r2.x, m.r2.z, m.r2.w)),
      Row(Det3(m.r1.x, m.r1.y, m.r1.w, m.r2.x, m.r2.y, m.r2.w, m.r3.x, m.r3.y, m.r3.w),
          -Det3(m.r0.x, m.r0.y, m.r0.w, m.r2.x, m.r2.y, m.r2.w, m.r3.x, m.r3.y, m.r3.w),
          Det3(m.r0.x, m.r0.y, m.r0.w, m.r1.x, m.r1.y, m.r1.w, m.r3.x, m.r3.y, m.r3.w),
          -Det3(m.r0.x, m.r0.y, m.r0.w, m.r1.x, m.r1.y, m.r1.w, m.r2.x, m.r2.y, m.r2.w)),
      Row(-Det3(m.r1.x, m.r1.y, m.r1.z, m.r2.x, m.r2.y, m.r2.z, m.r3.x, m.r3.y, m.r3.z),
          Det3(m.r0.x, m.r0.y, m.r0.z, m.r2.x, m.r2.y, m.r2.z, m.r3.x, m.r3.y, m.r3.z),
          -Det3(m.r0.x, m.r0.y, m.r0.z, m.r1.x, m.r1.y, m.r1.z, m.r3.x, m.r3.y, m.r3.z),
          Det3(m.r0.x, m.r0.y, m.r0.z, m.r1.x, m.r1.y, m.r1.z, m.r2.x, m.r2.y, m.r2.z)))
  }

  /** The source's sixteen hand-written formulas are the textbook's. */
  lemma AdjugateIsCofactorTable(m: Mat4)
    ensures Adjugate(m) == CofactorTable(m)
  {
    ExpandFirst(m.r1.y, m.r1.z, m.r1.w, m.r2.y, m.r2.z, m.r2.w, m.r3.y, m.r3.z, m.r3.w);
    ExpandFirst(m.r0.y, m.r0.z, m.r0.w, m.r2.y, m.r2.z, m.r2.w, m.r3.y, m.r3.z, m.r3.w);
    ExpandFirst(m.r0.y, m.r0.z, m.r0.w, m.r1.y, m.r1.z, m.r1.w, m.r3.y, m.r3.z, m.r3.w);
    ExpandFirst(m.r0.y, m.r0.z, m.r0.w, m.r1.y, m.r1.z, m.r1.w, m.r2.y, m.r2.z, m.r2.w);
    ExpandFirst(m.r1.x, m.r1.z, m.r1.w, m.r2.x, m.r2.z, m.r2.w, m.r3.x, m.r3.z, m.r3.w);
    ExpandFirst(m.r0.x, m.r0.z, m.r0.w, m.r2.x, m.r2.z, m.r2.w, m.r3.x, m.r3.z, m.r3.w);
    ExpandFirst(m.r0.x, m.r0.z, m.r0.w, m.r1.x, m.r1.z, m.r1.w, m.r3.x, m.r3.z, m.r3.w);
    ExpandFirst(m.r0.x, m.r0.z, m.r0.w, m.r1.x, m.r1.z, m.r1.w, m.r2.x, m.r2.z, m.r2.w);
    ExpandFirst(m.r1.x, m.r1.y, m.r1.w, m.r2.x, m.r2.y, m.r2.w, m.r3.x, m.r3.y, m.r3.w);
    ExpandFirst(m.r0.x, m.r0.y, m.r0.w, m.r2.x, m.r2.y, m.r2.w, m.r3.x, m.r3.y, m.r3.w);
    ExpandFirst(m.r0.x, m.r0.y, m.r0.w, m.r1.x, m.r1.y, m.r1.w, m.r3.x, m.r3.y, m.r3.w);
    ExpandFirst(m.r0.x, m.r0.y, m.r0.w, m.r1.x, m.r1.y, m.r1.w, m.r2.x, m.r2.y, m.r2.w);
    ExpandFirst(m.r1.x, m.r1.y, m.r1.z, m.r2.x, m.r2.y, m.r2.z, m.r3.x, m.r3.y, m.r3.z);
    ExpandFirst(m.r0.x, m.r0.y, m.r0.z, m.r2.x, m.r2.y, m.r2.z, m.r3.x, m.r3.y, m.r3.z);
    ExpandFirst(m.r0.x, m.r0.y, m.r0.z, m.r1.x, m.r1.y, m.r1.z, m.r3.x, m.r3.y, m.r3.z);
    ExpandFirst(m.r0.x, m.r0.y, m.r0.z, m.r1.x, m.r1.y, m.r1.z, m.r2.x, m.r2.y, m.r2.z);
  }

  lemma CofactorTableTranspose(m: Mat4)
    ensures CofactorTable(Transpose(m)) == Transpose(CofactorTable(m))
  {
    Det3Transpose(m.r1.y, m.r1.z, m.r1.w, m.r2.y, m.r2.z, m.r2.w, m.r3.y, m.r3.z, m.r3.w);
    Det3Transpose(m.r0.y, m.r0.z, m.r0.w, m.r2.y, m.r2.z, m.r2.w, m.r3.y, m.r3.z, m.r3.w);
    Det3Transpose(m.r0.y, m.r0.z, m.r0.w, m.r1.y, m.r1.z, m.r1.w, m.r3.y, m.r3.z, m.r3.w);
    Det3Transpose(m.r0.y, m.r0.z, m.r0.w, m.r1.y, m.r1.z, m.r1.w, m.r2.y, m.r2.z, m.r2.w);
    Det3Transpose(m.r1.x, m.r1.z, m.r1.w, m.r2.x, m.r2.z, m.r2.w, m.r3.x, m.r3.z, m.r3.w);
    Det3Transpose(m.r0.x, m.r0.z, m.r0.w, m.r2.x, m.r2.z, m.r2.w, m.r3.x, m.r3.z, m.r3.w);
    Det3Transpose(m.r0.x, m.r0.z, m.r0.w, m.r1.x, m.r1.z, m.r1.w, m.r3.x, m.r3.z, m.r3.w);
    Det3Transpose(m.r0.x, m.r0.z, m.r0.w, m.r1.x, m.r1.z, m.r1.w, m.r2.x, m.r2.z, m.r2.w);
    Det3Transpose(m.r1.x, m.r1.y, m.r1.w, m.r2.x, m.r2.y, m.r2.w, m.r3.x, m.r3.y, m.r3.w);
    Det3Transpose(m.r0.x, m.r0.y, m.r0.w, m.r2.x, m.r2.y, m.r2.w, m.r3.x, m.r3.y, m.r3.w);
    Det3Transpose(m.r0.x, m.r0.y, m.r0.w, m.r1.x, m.r1.y, m.r1.w, m.r3.x, m.r3.y, m.r3.w);
    Det3Transpose(m.r0.x, m.r0.y, m.r0.w, m.r1.x, m.r1.y, m.r1.w, m.r2.x, m.r2.y, m.r2.w);
    Det3Transpose(m.r1.x, m.r1.y, m.r1.z, m.r2.x, m.r2.y, m.r2.z, m.r3.x, m.r3.y, m.r3.z);
    Det3Transpose(m.r0.x, m.r0.y, m.r0.z, m.r2.x, m.r2.y, m.r2.z, m.r3.x, m.r3.y, m.r3.z);
    Det3Transpose(m.r0.x, m.r0.y, m.r0.z, m.r1.x, m.r1.y, m.r1.z, m.r3.x, m.r3.y, m.r3.z);
    Det3Transpose(m.r0.x, m.r0.y, m.r0.z, m.r1.x, m.r1.y, m.r1.z, m.r2.x, m.r2.y, m.r2.z);
  }

  lemma TransposeMul(a: Mat4, b: Mat4)
    ensures Transpose(MatMul(a, b)) == MatMul(Transpose(b), Transpose(a))
  {
    forall p: Row, q: Row ensures Dot(p, q) == Dot(q, p) { }
  }

  lemma AdjugateMat(m: Mat4)
    ensures MatMul(Adjugate(m), m) == Scale(IDENTITY, Det(Transpose(m)))
  {
    var t := Transpose(m);
    MatAdjugate(t);
    AdjugateIsCofactorTable(m);
    AdjugateIsCofactorTable(t);
    CofactorTableTranspose(m);
    TransposeMul(t, Adjugate(t));
    assert Transpose(t) == m;
    assert Transpose(Transpose(Adjugate(m))) == Adjugate(m);
  }

  lemma ScaleIdentity(m: Mat4, d: real)
    ensures MatMul(Scale(IDENTITY, d), m) == Scale(m, d) && MatMul(m, Scale(IDENTITY, d)) == Scale(m, d)
  {
    RowMulScale(m.r0, IDENTITY, d);
    RowMulScale(m.r1, IDENTITY, d);
    RowMulScale(m.r2, IDENTITY, d);
    RowMulScale(m.r3, IDENTITY, d);
    ScaledRowMul(IDENTITY.r0, m, d);
    ScaledRowMul(IDENTITY.r1, m, d);
    ScaledRowMul(IDENTITY.r2, m, d);
    ScaledRowMul(IDENTITY.r3, m, d);
  }

  lemma DetTranspose(m: Mat4)
    ensures Det(Transpose(m)) == Det(m)
  {
    var d, e := Det(m), Det(Transpose(m));
    MatAdjugate(m);
    AdjugateMat(m);
    MatMulAssoc(m, Adjugate(m), m);
    ScaleIdentity(m, d);
    ScaleIdentity(m, e);
    assert Scale(m, d) == Scale(m, e);
    var zero := Row(0.0, 0.0, 0.0, 0.0);
    if m == Mat4(zero, zero, zero, zero) {
      assert Transpose(m) == m;
    } else if d != e {
      RowCancel(m.r0, d, e);
      RowCancel(m.r1, d, e);
      RowCancel(m.r2, d, e);
      RowCancel(m.r3, d, e);
    }
  }

  lemma RowCancel(a: Row, d: real, e: real)
    requires ScaleRow(a, d) == ScaleRow(a, e) && d != e
    ensures a == Row(0.0, 0.0, 0.0, 0.0)
  {
  }

  /** Whenever `mat_inverse` answers, the answer is an inverse on both sides. */
  lemma InverseTwoSided(m: Mat4)
    requires MatInverse(m).Some?
    ensures MatMul(m, MatInverse(m).value) == IDENTITY
    ensures MatMul(MatInverse(m).value, m) == IDENTITY
  {
    var det := Det(m);
    var d, adj := 1.0 / det, Adjugate(m);
    MatAdjugate(m);
    AdjugateMat(m);
    DetTranspose(m);
    RowMulScale(m.r0, adj, d);
    RowMulScale(m.r1, adj, d);
    RowMulScale(m.r2, adj, d);
    RowMulScale(m.r3, adj, d);
    ScaledRowMul(adj.r0, m, d);
    ScaledRowMul(adj.r1, m, d);
    ScaledRowMul(adj.r2, m, d);
    ScaledRowMul(adj.r3, m, d);
  }

  /** ... and the only one, on either side. */
  lemma InverseUnique(m: Mat4, x: Mat4)
    requires MatInverse(m).Some?
    requires MatMul(x, m) == IDENTITY || MatMul(m, x) == IDENTITY
    ensures x == MatInverse(m).value
  {
    var i := MatInverse(m).value;
    InverseTwoSided(m);
    if MatMul(x, m) == IDENTITY { MatMulAssoc(x, m, i); } else { MatMulAssoc(i, m, x); }
  }

  // ------------------------------------------------------------------- normals

  /** A square root on the numbers that have one. */
  ghost predicate SquareRoot(root: real -> real) {
    forall x: real :: x >= 0.0 ==> root(x) >= 0.0 && root(x) * root(x) == x
  }

  /** `normalize`: a direction as good as zero stays as it is. */
  function Normalize(v: Row, root: real -> real): Row {
    var len := root(Dot(v, v));
    if len > EPSILON then Row(v.x / len, v.y / len, v.z / len, v.w / len) else v
  }

  /** The row (n, 0) times the inverse, its fourth entry dropped. */
  function TurnedNormal(inv: Mat4, n: Row): Row {
    RowMul(n, inv).(w := 0.0)
  }

  /** `transform_normal`: a singular matrix leaves n alone. */
  function TransformNormal(m: Mat4, n: Row, root: real -> real): Row {
    match MatInverse(m)
    case None => n
    case Some(inv) => Normalize(TurnedNormal(inv, n), root)
  }

  predicate Affine(m: Mat4) {
    m.r3 == Row(0.0, 0.0, 0.0, 1.0)
  }

  lemma TurnedKeepsAngles(m: Mat4, n: Row, t: Row)
    requires Affine(m) && MatInverse(m).Some? && n.w == 0.0 && t.w == 0.0
    ensures Dot(TurnedNormal(MatInverse(m).value, n), MulColumn(m, t)) == Dot(n, t)
  {
    var inv := MatInverse(m).value;
    InverseTwoSided(m);
    EntryAssoc(RowMul(n, inv), m, t);
    RowMulAssoc(n, inv, m);
    assert RowMul(n, IDENTITY) == n;
    DropLast(RowMul(n, inv), MulColumn(m, t));
  }

  /** What `normalize` divides by. */
  function Length(v: Row, root: real -> real): real {
    if root(Dot(v, v)) > EPSILON then root(Dot(v, v)) else 1.0
  }

  lemma Quotient(a: real, len: real)
    requires len > 0.0
    ensures Times(a / len, len) == a
  {
  }

  lemma NormalizeScales(v: Row, root: real -> real)
    ensures ScaleRow(Normalize(v, root), Length(v, root)) == v
  {
    Quotient(v.x, Length(v, root));
    Quotient(v.y, Length(v, root));
    Quotient(v.z, Length(v, root));
    Quotient(v.w, Length(v, root));
  }

  /** What the inverse transpose is for: against every transformed direction the
      transformed normal has the dot product the two had before, but for its own length;
      so a normal perpendicular to a surface stays so, and on the same side. */
  lemma NormalKeepsAngles(m: Mat4, n: Row, t: Row, root: real -> real)
    requires Affine(m) && MatInverse(m).Some? && n.w == 0.0 && t.w == 0.0
    ensures var len := Length(TurnedNormal(MatInverse(m).value, n), root);
            len > 0.0 && Times(Dot(TransformNormal(m, n, root), MulColumn(m, t)), len) == Dot(n, t)
  {
    var v := TurnedNormal(MatInverse(m).value, n);
    TurnedKeepsAngles(m, n, t);
    NormalizeScales(v, root);
    DotScale(Normalize(v, root), MulColumn(m, t), Length(v, root));
  }

  lemma DropLast(a: Row, b: Row)
    requires b.w == 0.0
    ensures Dot(a.(w := 0.0), b) == Dot(a, b)
  {
  }

  // ------------------------------------------------------------------- skeletons

  /** The components of a Roblox CFrame, in GetComponents order. */
  datatype CFrame = CFrame(x: real, y: real, z: real,
    r00: real, r01: real, r02: real, r10: real, r11: real, r12: real, r20: real, r21: real, r22: real)

  function CframeFromMat(m: Mat4): CFrame {
    CFrame(m.r0.w, m.r1.w, m.r2.w, m.r0.x, m.r0.y, m.r0.z, m.r1.x, m.r1.y, m.r1.z, m.r2.x, m.r2.y, m.r2.z)
  }

  function MatFromCframe(c: CFrame): Mat4 {
    Mat4(Row(c.r00, c.r01, c.r02, c.x), Row(c.r10, c.r11, c.r12, c.y), Row(c.r20, c.r21, c.r22, c.z),
         Row(0.0, 0.0, 0.0, 1.0))
  }

  /** A CFrame is exactly an affine matrix. */
  lemma CframeRoundTrip(c: CFrame, m: Mat4)
    ensures CframeFromMat(MatFromCframe(c)) == c
    ensures MatFromCframe(CframeFromMat(m)) == m <==> Affine(m)
  {
  }

  datatype Bone = Bone(parent: Option<nat>, cframe: CFrame)

  /** What the decoder guarantees of every bone list. */
  predicate ParentsFirst(bones: seq<Bone>) {
    forall i :: 0 <= i < |bones| && bones[i].parent.Some? ==> bones[i].parent.value < i
  }

  function Bind(b: Bone): Mat4 {
    MatFromCframe(b.cframe)
  }

  datatype Outcome<+T> = Ok(value: T) | SingularBind(bone: nat)

  predicate Singular(b: Bone) {
    MatInverse(Bind(b)).None?
  }

  /** The locals written so far pose every bone they cover at its bind matrix. */
  ghost predicate PosesBinds(bones: seq<Bone>, locals: seq<Mat4>)
    requires ParentsFirst(bones)
  {
    |locals| <= |bones| && forall i :: 0 <= i < |locals| ==> World(bones, locals, i) == Bind(bones[i])
  }

  lemma PosesNext(bones: seq<Bone>, locals: seq<Mat4>, local: Mat4)
    requires ParentsFirst(bones) && PosesBinds(bones, locals) && |locals| < |bones|
    requires var b := bones[|locals|];
             if b.parent.None? then local == Bind(b)
             else MatMul(Bind(bones[b.parent.value]), local) == Bind(b)
    ensures PosesBinds(bones, locals + [local])
  {
    var more, n := locals + [local], |locals|;
    forall j | 0 <= j <= n ensures World(bones, more, j) == Bind(bones[j]) {
      if j < n {
        WorldPrefix(bones, locals, more, j);
      } else if bones[n].parent.Some? {
        WorldPrefix(bones, locals, more, bones[n].parent.value);
      }
    }
  }

  lemma UndoParent(parent: Mat4, inverse: Mat4, bind: Mat4)
    requires MatInverse(parent) == Some(inverse)
    ensures MatMul(parent, MatMul(inverse, bind)) == bind
  {
    InverseTwoSided(parent);
    MatMulAssoc(parent, inverse, bind);
  }

  predicate ParentInvertible(bones: seq<Bone>, i: nat)
    requires ParentsFirst(bones) && i < |bones|
  {
    bones[i].parent.Some? ==> !Singular(bones[bones[i].parent.value])
  }

  /** The node-local transforms written for the bones, or the first parent whose bind
      pose cannot be inverted. */
  method LocalTransforms(bones: seq<Bone>) returns (r: Outcome<seq<Mat4>>)
    requires ParentsFirst(bones)
    ensures r.Ok? ==> |r.value| == |bones| && PosesBinds(bones, r.value)
    ensures r.Ok? <==> forall i :: 0 <= i < |bones| ==> ParentInvertible(bones, i)
    ensures r.SingularBind? ==> exists i :: 0 <= i < |bones| && bones[i].parent == Some(r.bone)
                                  && !ParentInvertible(bones, i)
                                  && forall j :: 0 <= j < i ==> ParentInvertible(bones, j)
  {
    var locals: seq<Mat4> := [];
    for i := 0 to |bones|
      invariant |locals| == i && PosesBinds(bones, locals)
      invariant forall j :: 0 <= j < i ==> ParentInvertible(bones, j)
    {
      var local := Bind(bones[i]);
      if bones[i].parent.Some? {
        var p := bones[i].parent.value;
        var inverse := MatInverse(Bind(bones[p]));
        if inverse.None? {
          assert !ParentInvertible(bones, i);
          return SingularBind(p);
        }
        local := MatMul(inverse.value, Bind(bones[i]));
        UndoParent(Bind(bones[p]), inverse.value, Bind(bones[i]));
      }
      PosesNext(bones, locals, local);
      locals := locals + [local];
    }
    r := Ok(locals);
  }

  /** The product of the local transforms from bone i's root down to i: how a reader of
      the file poses the bone (section 3.5.3 of the glTF 2.0 specification). */
  function World(bones: seq<Bone>, locals: seq<Mat4>, i: nat): Mat4
    requires ParentsFirst(bones) && i < |bones| && i < |locals|
  {
    match bones[i].parent
    case None => locals[i]
    case Some(p) => MatMul(World(bones, locals, p), locals[i])
  }

  lemma {:induction false} WorldPrefix(bones: seq<Bone>, a: seq<Mat4>, b: seq<Mat4>, i: nat)
    requires ParentsFirst(bones) && i < |bones| && i < |a| && a <= b
    ensures World(bones, a, i) == World(bones, b, i)
  {
    if bones[i].parent.Some? { WorldPrefix(bones, a, b, bones[i].parent.value); }
  }

  /** The skin's inverse bind matrices, or the first bone whose pose cannot be inverted. */
  method InverseBinds(bones: seq<Bone>) returns (r: Outcome<seq<Mat4>>)
    ensures r.Ok? ==> |r.value| == |bones|
                      && forall i :: 0 <= i < |bones| ==> MatMul(r.value[i], Bind(bones[i])) == IDENTITY
    ensures r.SingularBind? ==> r.bone < |bones| && Singular(bones[r.bone])
                                && forall j :: 0 <= j < r.bone ==> !Singular(bones[j])
    ensures r.Ok? ==> forall i :: 0 <= i < |bones| ==> !Singular(bones[i])
  {
    var ibms: seq<Mat4> := [];
    for i := 0 to |bones|
      invariant |ibms| == i
      invariant forall j :: 0 <= j < i ==> MatInverse(Bind(bones[j])).Some? && MatMul(ibms[j], Bind(bones[j])) == IDENTITY
    {
      var inverse := MatInverse(Bind(bones[i]));
      if inverse.None? { return SingularBind(i); }
      InverseTwoSided(Bind(bones[i]));
      ibms := ibms + [inverse.value];
    }
    r := Ok(ibms);
  }

  /** An exported skeleton reproduces its bind pose, and a reader gets it back: each
      bone's world transform is its bind matrix, that times its inverse bind matrix is
      the identity on both sides (section 3.7.3 of the glTF 2.0 specification), and
      inverting the written matrix, when the reader's test accepts it, yields the
      bone's CFrame again. */
  lemma SkeletonReproducesBindPose(bones: seq<Bone>, locals: seq<Mat4>, ibms: seq<Mat4>, i: nat)
    requires ParentsFirst(bones) && i < |bones| == |locals| == |ibms|
    requires PosesBinds(bones, locals)
    requires forall j :: 0 <= j < |bones| ==> !Singular(bones[j]) && MatMul(ibms[j], Bind(bones[j])) == IDENTITY
    ensures MatMul(World(bones, locals, i), ibms[i]) == IDENTITY
    ensures MatMul(ibms[i], World(bones, locals, i)) == IDENTITY
    ensures MatInverse(ibms[i]).Some? ==> CframeFromMat(MatInverse(ibms[i]).value) == bones[i].cframe
  {
    var bind := Bind(bones[i]);
    InverseUnique(bind, ibms[i]);
    InverseTwoSided(bind);
    if MatInverse(ibms[i]).Some? { InverseUnique(ibms[i], bind); }
  }
}
