/** The mesh interchange blob of rodeo-client/src/runtime/mesh.rs: its printer
    `encode_blob`, its parser `decode_blob` over a `Cursor`, and the meshes they agree
    on. An f32 is carried as its 32 bits, which the codec never looks into. */
module MeshCodec {
  import opened Options
  import opened Utf8

  const MAGIC: Word := 0x4853_4D52
  const VERSION: Word := 1
  const F_NORMALS := 1
  const F_UVS := 2
  const F_COLORS := 4
  const F_SKIN := 8
  const WORDS := 0x1_0000_0000
  /** "No parent" of a bone, "unused slot" of a vertex. */
  const NONE: Word := 0xFFFF_FFFF

  type Word = w: int | 0 <= w < 0x1_0000_0000

  /** `n as u32`. */
  function Narrow(n: nat): (w: Word)
    ensures w <= n
  {
    if n < WORDS then n else Narrow(n - WORDS)
  }

  lemma NarrowIs(n: nat)
    ensures Narrow(n) == n % 0x1_0000_0000
  {
    if n >= WORDS { NarrowIs(n - WORDS); }
  }

  datatype Bone = Bone(name: seq<Byte>, parent: Option<Word>, cframe: seq<Word>, isVirtual: bool)

  type Rows = seq<seq<Word>>

  datatype Mesh = Mesh(
    positions: Rows,
    normals: Option<Rows>,
    uvs: Option<Rows>,
    colors: Option<Rows>,
    joints: Option<Rows>,
    weights: Option<Rows>,
    indices: seq<Word>,
    bones: seq<Bone>)

  datatype Error = Truncated | BadMagic | BadVersion | BadIndexCount | IndexOutOfRange
                 | BadBoneName | ParentAfterChild | JointOutOfRange

  datatype Result<+T> = Ok(value: T) | Err(error: Error) {
    predicate IsFailure() { Err? }
    function PropagateFailure<U>(): Result<U> requires Err? { Err(error) }
    function Extract(): T requires Ok? { value }
  }

  /** Outcome of parsing at a position: the value and the position behind it. */
  datatype Parsed<+T> = At(value: T, pos: nat) | Bad(error: Error) {
    predicate IsFailure() { Bad? }
    function PropagateFailure<U>(): Parsed<U> requires Bad? { Bad(error) }
    function Extract(): (T, nat) requires At? { (value, pos) }
  }

  // ------------------------------------------------------------- well-formedness

  predicate RowsShaped(rows: Rows, count: nat, width: nat) {
    |rows| == count && forall i :: 0 <= i < |rows| ==> |rows[i]| == width
  }

  predicate OptShaped(rows: Option<Rows>, count: nat, width: nat) {
    rows.Some? ==> RowsShaped(rows.value, count, width)
  }

  predicate BoneOk(b: Bone, index: nat) {
    && |b.cframe| == 12 && |b.name| < WORDS && Valid(b.name)
    && (b.parent.Some? ==> b.parent.value < index)
  }

  predicate JointOk(slot: Word, bones: nat) {
    slot == NONE || slot < bones
  }

  predicate JointsOk(joints: Rows, bones: nat) {
    forall v, k :: 0 <= v < |joints| && 0 <= k < |joints[v]| ==> JointOk(joints[v][k], bones)
  }

  /** One entry per vertex in every attribute present; joints and weights together. */
  predicate AttributesShaped(m: Mesh) {
    && RowsShaped(m.positions, |m.positions|, 3)
    && OptShaped(m.normals, |m.positions|, 3)
    && OptShaped(m.uvs, |m.positions|, 2)
    && OptShaped(m.colors, |m.positions|, 4)
    && OptShaped(m.joints, |m.positions|, 4)
    && OptShaped(m.weights, |m.positions|, 4)
    && (m.joints.Some? <==> m.weights.Some?)
  }

  /** The meshes the format can carry. Row widths and the name's encoding are facts of
      the source's types; the rest is what `decode_blob` checks. */
  predicate WellFormed(m: Mesh) {
    && |m.positions| < WORDS && |m.indices| < WORDS && |m.bones| < WORDS
    && AttributesShaped(m)
    && |m.indices| % 3 == 0
    && (forall i :: 0 <= i < |m.indices| ==> m.indices[i] < |m.positions|)
    && (forall i :: 0 <= i < |m.bones| ==> BoneOk(m.bones[i], i))
    && (m.joints.Some? ==> JointsOk(m.joints.value, |m.bones|))
  }

  // -------------------------------------------------------------------- printing

  /** `to_le_bytes` of w `as u32`. */
  function Le(w: int): (b: seq<Byte>)
    ensures |b| == 4
  {
    [w % 256, w / 256 % 256, w / 65536 % 256, w / 16777216 % 256]
  }

  function FromLe(b: seq<Byte>): Word
    requires |b| == 4
  {
    b[0] as int + 256 * (b[1] as int) + 65536 * (b[2] as int) + 16777216 * (b[3] as int)
  }

  lemma FromLeLe(w: Word)
    ensures FromLe(Le(w)) == w
  {
    assert w / 65536 == w / 256 / 256 && w / 16777216 == w / 256 / 256 / 256;
  }

  /** The items printed one after the other. */
  function Each<T(!new)>(print1: T -> seq<Byte>, items: seq<T>): seq<Byte> {
    if items == [] then [] else Each(print1, items[..|items| - 1]) + print1(items[|items| - 1])
  }

  function WordBytes(w: Word): (b: seq<Byte>)
    ensures |b| == 4
  {
    Le(w)
  }

  function Words(ws: seq<Word>): seq<Byte> {
    Each(WordBytes, ws)
  }

  function RowBytes(rows: Rows): seq<Byte> {
    Each(Words, rows)
  }

  /** Prints rows. The layout of the attributes does not depend on how. */
  type RowPrinter = Rows -> seq<Byte>

  function OptBytes(bytes: RowPrinter, rows: Option<Rows>): seq<Byte> {
    if rows.Some? then bytes(rows.value) else []
  }

  /** Whatever is printed from 4-byte items is aligned. */
  lemma {:induction false} EachAligned<T(!new)>(print1: T -> seq<Byte>, items: seq<T>)
    requires forall t: T :: |print1(t)| % 4 == 0
    ensures |Each(print1, items)| % 4 == 0
  {
    if items != [] {
      var n := |items| - 1;
      EachAligned(print1, items[..n]);
      SumAligned(|Each(print1, items[..n])|, |print1(items[n])|);
    }
  }

  lemma SumAligned(a: nat, b: nat)
    requires a % 4 == 0 && b % 4 == 0
    ensures (a + b) % 4 == 0
  {
  }

  lemma {:induction false} WordsLength(ws: seq<Word>)
    ensures |Words(ws)| == 4 * |ws|
  {
    if ws != [] { WordsLength(ws[..|ws| - 1]); }
  }

  lemma RowBytesAligned(rows: Rows)
    ensures |RowBytes(rows)| % 4 == 0
  {
    forall row: seq<Word> ensures |Words(row)| % 4 == 0 { WordsLength(row); }
    EachAligned(Words, rows);
  }

  function Zeros(n: nat): (b: seq<Byte>)
    ensures |b| == n
  {
    if n == 0 then [] else Zeros(n - 1) + [0]
  }

  /** The decoder's padding: up to the next multiple of 4 of the name length alone. */
  function Pad(n: nat): (p: nat)
    ensures p < 4 && (n + p) % 4 == 0
  {
    (n + 3) / 4 * 4 - n
  }

  function NameBytes(name: seq<Byte>): (r: seq<Byte>)
    ensures |r| == 4 + (|name| + Pad(|name|))
  {
    Le(|name|) + name + Zeros(Pad(|name|))
  }

  function BoneHead(b: Bone): seq<Byte> {
    Le(if b.parent.Some? then b.parent.value else NONE)
    + [if b.isVirtual then 1 else 0, 0, 0, 0]
    + Words(b.cframe)
  }

  function BoneBytes(b: Bone): seq<Byte> {
    BoneHead(b) + NameBytes(b.name)
  }

  predicate Skinned(m: Mesh) {
    m.joints.Some? && m.weights.Some?
  }

  function Flags(m: Mesh): (f: Word)
    ensures HasFlag(f, F_NORMALS) == m.normals.Some? && HasFlag(f, F_UVS) == m.uvs.Some?
    ensures HasFlag(f, F_COLORS) == m.colors.Some? && HasFlag(f, F_SKIN) == Skinned(m)
  {
    (if m.normals.Some? then F_NORMALS else 0) + (if m.uvs.Some? then F_UVS else 0)
    + (if m.colors.Some? then F_COLORS else 0) + (if Skinned(m) then F_SKIN else 0)
  }

  /** `flags & bit != 0`, for a power of two. */
  predicate HasFlag(flags: Word, bit: int)
    requires 0 < bit
  {
    flags / bit % 2 == 1
  }

  function HeaderBytes(m: Mesh): (b: seq<Byte>)
    ensures |b| == 24
  {
    Le(MAGIC) + Le(VERSION) + Le(|m.positions|) + Le(|m.indices|) + Le(Flags(m)) + Le(|m.bones|)
  }

  function SkinBytes(bytes: RowPrinter, m: Mesh): seq<Byte> {
    if Skinned(m) then bytes(m.joints.value) + bytes(m.weights.value) else []
  }

  function AttributeBytes(bytes: RowPrinter, m: Mesh): seq<Byte> {
    VertexBytes(bytes, m) + SkinBytes(bytes, m)
  }

  function VertexBytes(bytes: RowPrinter, m: Mesh): seq<Byte> {
    (OptBytes(bytes, Some(m.positions)) + OptBytes(bytes, m.normals))
    + (OptBytes(bytes, m.uvs) + OptBytes(bytes, m.colors))
  }

  function TopologyBytes(m: Mesh): seq<Byte> {
    Words(m.indices) + Each(BoneBytes, m.bones)
  }

  /** The blob layout, each bone padded by its own name's length. */
  function Encode(m: Mesh): seq<Byte> {
    HeaderBytes(m) + AttributeBytes(RowBytes, m) + TopologyBytes(m)
  }

  method PutWords(out: seq<Byte>, ws: seq<Word>) returns (r: seq<Byte>)
    ensures r == out + Words(ws)
  {
    r := out;
    assert ws[..0] == [];
    for i := 0 to |ws|
      invariant r == out + Words(ws[..i])
    {
      assert ws[..i + 1][..i] == ws[..i];
      r := r + Le(ws[i]);
      assert r == out + (Words(ws[..i]) + WordBytes(ws[i]));
    }
    assert ws[..|ws|] == ws;
  }

  method PutRows(out: seq<Byte>, rows: Rows) returns (r: seq<Byte>)
    ensures r == out + RowBytes(rows)
  {
    r := out;
    assert rows[..0] == [];
    for i := 0 to |rows|
      invariant r == out + RowBytes(rows[..i])
    {
      assert rows[..i + 1][..i] == rows[..i];
      r := PutWords(r, rows[i]);
      assert r == out + (RowBytes(rows[..i]) + Words(rows[i]));
    }
    assert rows[..|rows|] == rows;
  }

  /** The printer pads the whole output so far, not the name: the same padding,
      because everything before the name keeps the output aligned. */
  method PutName(out: seq<Byte>, name: seq<Byte>) returns (r: seq<Byte>)
    requires |out| % 4 == 0
    ensures r == out + NameBytes(name) && |r| % 4 == 0
  {
    r := out + Le(|name|);
    r := r + name;
    ghost var named := r;
    ghost var n := 0;
    Aligned(|out|, |name|, 0);
    while |r| % 4 != 0
      invariant r == named + Zeros(n) && n <= Pad(|name|)
      invariant |r| % 4 == 0 <==> n == Pad(|name|)
      decreases Pad(|name|) - n
    {
      r := r + [0];
      n := n + 1;
      Aligned(|out|, |name|, n);
    }
  }

  /** Behind an aligned output, a name and n zeros end aligned when they are the padding. */
  lemma Aligned(out: nat, name: nat, n: nat)
    requires out % 4 == 0 && n <= Pad(name)
    ensures (out + 4 + name + n) % 4 == 0 <==> n == Pad(name)
  {
  }

  method PutBone(out: seq<Byte>, b: Bone) returns (r: seq<Byte>)
    requires |out| % 4 == 0
    ensures r == out + BoneBytes(b) && |r| % 4 == 0
  {
    r := out + Le(if b.parent.Some? then b.parent.value else NONE);
    r := r + [if b.isVirtual then 1 else 0];
    r := r + [0, 0, 0];
    r := PutWords(r, b.cframe);
    assert r == out + BoneHead(b);
    WordsLength(b.cframe);
    r := PutName(r, b.name);
    assert (out + BoneHead(b)) + NameBytes(b.name) == out + BoneBytes(b);
  }

  method PutBones(out: seq<Byte>, bones: seq<Bone>) returns (r: seq<Byte>)
    requires |out| % 4 == 0
    ensures r == out + Each(BoneBytes, bones)
  {
    r := out;
    assert bones[..0] == [];
    for i := 0 to |bones|
      invariant r == out + Each(BoneBytes, bones[..i]) && |r| % 4 == 0
    {
      assert bones[..i + 1][..i] == bones[..i];
      r := PutBone(r, bones[i]);
      assert r == out + (Each(BoneBytes, bones[..i]) + BoneBytes(bones[i]));
    }
    assert bones[..|bones|] == bones;
  }

  method PutOptRows(out: seq<Byte>, rows: Option<Rows>) returns (r: seq<Byte>)
    ensures r == out + OptBytes(RowBytes, rows)
  {
    r := out;
    if rows.Some? { r := PutRows(out, rows.value); }
  }

  method PutHeader(m: Mesh) returns (out: seq<Byte>, flags: Word)
    ensures out == HeaderBytes(m) && flags == Flags(m)
  {
    flags := 0;
    if m.normals.Some? { flags := flags + F_NORMALS; }
    if m.uvs.Some? { flags := flags + F_UVS; }
    if m.colors.Some? { flags := flags + F_COLORS; }
    if m.joints.Some? && m.weights.Some? { flags := flags + F_SKIN; }
    out := Le(MAGIC) + Le(VERSION) + Le(|m.positions|) + Le(|m.indices|) + Le(flags) + Le(|m.bones|);
  }

  method PutSkin(out: seq<Byte>, skinned: bool, m: Mesh) returns (r: seq<Byte>)
    requires skinned <==> Skinned(m)
    ensures r == out + SkinBytes(RowBytes, m)
  {
    r := out;
    if skinned {
      r := PutRows(r, m.joints.value);
      r := PutRows(r, m.weights.value);
    }
  }

  method PutVertex(out: seq<Byte>, m: Mesh) returns (r: seq<Byte>)
    ensures r == out + VertexBytes(RowBytes, m)
  {
    ghost var positions := OptBytes(RowBytes, Some(m.positions));
    ghost var normals := OptBytes(RowBytes, m.normals);
    ghost var uvs := OptBytes(RowBytes, m.uvs);
    ghost var colors := OptBytes(RowBytes, m.colors);
    r := PutRows(out, m.positions);
    r := PutOptRows(r, m.normals);
    r := PutOptRows(r, m.uvs);
    r := PutOptRows(r, m.colors);
  }

  method PutAttributes(out: seq<Byte>, skinned: bool, m: Mesh) returns (r: seq<Byte>)
    requires skinned <==> Skinned(m)
    ensures r == out + AttributeBytes(RowBytes, m)
  {
    r := PutVertex(out, m);
    r := PutSkin(r, skinned, m);
  }

  lemma AlignedConcat(a: seq<Byte>, b: seq<Byte>)
    requires |a| % 4 == 0 && |b| % 4 == 0
    ensures |a + b| % 4 == 0
  {
  }

  lemma AttributeBytesAligned(m: Mesh)
    ensures |AttributeBytes(RowBytes, m)| % 4 == 0
  {
    var skin := SkinBytes(RowBytes, m);
    assert |skin| % 4 == 0 by {
      if Skinned(m) {
        RowBytesAligned(m.joints.value);
        RowBytesAligned(m.weights.value);
        AlignedConcat(RowBytes(m.joints.value), RowBytes(m.weights.value));
      }
    }
    OptRowBytesAligned(Some(m.positions));
    OptRowBytesAligned(m.normals);
    OptRowBytesAligned(m.uvs);
    OptRowBytesAligned(m.colors);
    var front := OptBytes(RowBytes, Some(m.positions)) + OptBytes(RowBytes, m.normals);
    var back := OptBytes(RowBytes, m.uvs) + OptBytes(RowBytes, m.colors);
    AlignedConcat(OptBytes(RowBytes, Some(m.positions)), OptBytes(RowBytes, m.normals));
    AlignedConcat(OptBytes(RowBytes, m.uvs), OptBytes(RowBytes, m.colors));
    AlignedConcat(front, back);
    AlignedConcat(front + back, skin);
  }

  lemma OptRowBytesAligned(rows: Option<Rows>)
    ensures |OptBytes(RowBytes, rows)| % 4 == 0
  {
    if rows.Some? { RowBytesAligned(rows.value); }
  }

  method PutTopology(out: seq<Byte>, m: Mesh) returns (r: seq<Byte>)
    requires |out| % 4 == 0
    ensures r == out + TopologyBytes(m)
  {
    r := PutWords(out, m.indices);
    WordsLength(m.indices);
    r := PutBones(r, m.bones);
  }

  // --------------------------------------------------------------------- parsing

  function TakeAt(data: seq<Byte>, pos: nat, n: nat): Parsed<seq<Byte>> {
    if pos + n > |data| then Bad(Truncated) else At(data[pos..pos + n], pos + n)
  }

  function WordAt(data: seq<Byte>, pos: nat): Parsed<Word> {
    var (b, p) :- TakeAt(data, pos, 4);
    At(FromLe(b), p)
  }

  /** count items in a row; item(i, p) parses the i-th at position p. The first
      failure stops everything. */
  function Many<T(!new)>(item: (nat, nat) -> Parsed<T>, pos: nat, count: nat): (r: Parsed<seq<T>>)
    ensures r.At? ==> |r.value| == count
  {
    if count == 0 then At([], pos) else
      var (ts, p) :- Many(item, pos, count - 1);
      var (t, q) :- item(count - 1, p);
      At(ts + [t], q)
  }

  function WordItem(data: seq<Byte>): (nat, nat) -> Parsed<Word> {
    (_: nat, p: nat) => WordAt(data, p)
  }

  function WordsAt(data: seq<Byte>, pos: nat, count: nat): Parsed<seq<Word>> {
    Many(WordItem(data), pos, count)
  }

  function RowItem(data: seq<Byte>, width: nat): (nat, nat) -> Parsed<seq<Word>> {
    (_: nat, p: nat) => WordsAt(data, p, width)
  }

  function RowsAt(data: seq<Byte>, pos: nat, count: nat, width: nat): Parsed<Rows> {
    Many(RowItem(data, width), pos, count)
  }

  /** Parses (pos, count, width) rows. */
  type RowReader = (nat, nat, nat) -> Parsed<Rows>

  function RowsOf(data: seq<Byte>): RowReader {
    (pos: nat, count: nat, width: nat) => RowsAt(data, pos, count, width)
  }

  function OptRowsAt(rows: RowReader, pos: nat, present: bool, count: nat, width: nat): Parsed<Option<Rows>> {
    if !present then At(None, pos) else
      var (value, p) :- rows(pos, count, width);
      At(Some(value), p)
  }

  function IndexAt(data: seq<Byte>, pos: nat, vertices: nat): Parsed<Word> {
    var (w, q) :- WordAt(data, pos);
    if w >= vertices then Bad(IndexOutOfRange) else At(w, q)
  }

  function IndexItem(data: seq<Byte>, vertices: nat): (nat, nat) -> Parsed<Word> {
    (_: nat, p: nat) => IndexAt(data, p, vertices)
  }

  function BoneAt(data: seq<Byte>, pos: nat, index: nat): (r: Parsed<Bone>)
    ensures r.At? ==> BoneOk(r.value, index)
  {
    var (parent, p1) :- WordAt(data, pos);
    var (flags, p2) :- TakeAt(data, p1, 4);
    var (cframe, p3) :- WordsAt(data, p2, 12);
    var (len, p4) :- WordAt(data, p3);
    var (name, p5) :- TakeAt(data, p4, len);
    if !Valid(name) then Bad(BadBoneName) else
      var (_, p6) :- TakeAt(data, p5, Pad(len));
      if parent != NONE && parent >= index then Bad(ParentAfterChild)
      else At(Bone(name, if parent == NONE then None else Some(parent), cframe, flags[0] != 0), p6)
  }

  function BoneItem(data: seq<Byte>): (nat, nat) -> Parsed<Bone> {
    (i: nat, p: nat) => BoneAt(data, p, i)
  }

  datatype Header = Header(vertices: Word, indices: Word, flags: Word, bones: Word)

  function HeaderAt(data: seq<Byte>): (r: Parsed<Header>)
    ensures r.At? ==> r.value.indices % 3 == 0
  {
    var (magic, p1) :- WordAt(data, 0);
    if magic != MAGIC then Bad(BadMagic) else
      var (version, p2) :- WordAt(data, p1);
      if version != VERSION then Bad(BadVersion) else
        var (vertices, p3) :- WordAt(data, p2);
        var (indices, p4) :- WordAt(data, p3);
        var (flags, p5) :- WordAt(data, p4);
        var (bones, p6) :- WordAt(data, p5);
        if indices % 3 != 0 then Bad(BadIndexCount) else At(Header(vertices, indices, flags, bones), p6)
  }

  datatype Attributes = Attributes(positions: Rows, normals: Option<Rows>, uvs: Option<Rows>,
    colors: Option<Rows>, joints: Option<Rows>, weights: Option<Rows>)

  /** Which optional attributes a blob carries. */
  datatype Present = Present(normals: bool, uvs: bool, colors: bool, skin: bool)

  function PresentIn(flags: Word): Present {
    Present(HasFlag(flags, F_NORMALS), HasFlag(flags, F_UVS), HasFlag(flags, F_COLORS), HasFlag(flags, F_SKIN))
  }

  function AttributesAt(rows: RowReader, pos: nat, vertices: nat, has: Present): Parsed<Attributes> {
    var (positions, p1) :- rows(pos, vertices, 3);
    var (normals, p2) :- OptRowsAt(rows, p1, has.normals, vertices, 3);
    var (uvs, p3) :- OptRowsAt(rows, p2, has.uvs, vertices, 2);
    var (colors, p4) :- OptRowsAt(rows, p3, has.colors, vertices, 4);
    var (joints, p5) :- OptRowsAt(rows, p4, has.skin, vertices, 4);
    var (weights, p6) :- OptRowsAt(rows, p5, has.skin, vertices, 4);
    At(Attributes(positions, normals, uvs, colors, joints, weights), p6)
  }

  /** The blob behind its header, from parsers of its parts. */
  function BodyOf(rows: RowReader, index: (nat, nat) -> Parsed<Word>, bone: (nat, nat) -> Parsed<Bone>, pos: nat,
    vertices: nat, has: Present, indexCount: nat, boneCount: nat): Parsed<Mesh>
  {
    var (a, p1) :- AttributesAt(rows, pos, vertices, has);
    var (indices, p2) :- Many(index, p1, indexCount);
    var (bones, p3) :- Many(bone, p2, boneCount);
    if a.joints.Some? && !JointsOk(a.joints.value, boneCount) then Bad(JointOutOfRange)
    else At(Mesh(a.positions, a.normals, a.uvs, a.colors, a.joints, a.weights, indices, bones), p3)
  }

  function BodyAt(data: seq<Byte>, pos: nat, h: Header): Parsed<Mesh> {
    BodyOf(RowsOf(data), IndexItem(data, h.vertices), BoneItem(data), pos, h.vertices, PresentIn(h.flags), h.indices, h.bones)
  }

  /** The parser as a function. Bytes behind the last bone are never looked at. */
  function Decode(data: seq<Byte>): Result<Mesh> {
    match HeaderAt(data)
    case Bad(e) => Err(e)
    case At(h, pos) =>
      match BodyAt(data, pos, h)
      case Bad(e) => Err(e)
      case At(m, _) => Ok(m)
  }

  /** A method's result r and final position pos are those the parsing function gives. */
  predicate Follows<T(==)>(r: Result<T>, pos: nat, spec: Parsed<T>) {
    match spec
    case At(v, p) => r == Ok(v) && pos == p
    case Bad(e) => r == Err(e)
  }

  class Cursor {
    const data: seq<Byte>
    var pos: nat

    constructor (data: seq<Byte>)
      ensures this.data == data && pos == 0
    {
      this.data := data;
      pos := 0;
    }

    method Take(n: nat) returns (r: Result<seq<Byte>>)
      modifies this
      ensures Follows(r, pos, TakeAt(data, old(pos), n))
    {
      var end := pos + n;
      if end > |data| { return Err(Truncated); }
      r := Ok(data[pos..end]);
      pos := end;
    }

    method U32() returns (r: Result<Word>)
      modifies this
      ensures Follows(r, pos, WordAt(data, old(pos)))
    {
      var b :- Take(4);
      r := Ok(FromLe(b));
    }

    method U32s(count: nat) returns (r: Result<seq<Word>>)
      modifies this
      ensures Follows(r, pos, WordsAt(data, old(pos), count))
    {
      var ws := [];
      var i := 0;
      while i < count
        invariant 0 <= i <= count
        invariant WordsAt(data, old(pos), i) == At(ws, pos)
      {
        ManyNext(WordItem(data), old(pos), i, ws, pos, count);
        var w := U32();
        if w.Err? { return Err(w.error); }
        ws := ws + [w.value];
        i := i + 1;
      }
      r := Ok(ws);
    }

    /** `f32s::<width>`, and the loop that reads the joint slots. */
    method ReadRows(count: nat, width: nat) returns (r: Result<Rows>)
      modifies this
      ensures Follows(r, pos, RowsAt(data, old(pos), count, width))
    {
      var rows := [];
      var i := 0;
      while i < count
        invariant 0 <= i <= count
        invariant RowsAt(data, old(pos), i, width) == At(rows, pos)
      {
        ManyNext(RowItem(data, width), old(pos), i, rows, pos, count);
        var row := U32s(width);
        if row.Err? { return Err(row.error); }
        rows := rows + [row.value];
        i := i + 1;
      }
      r := Ok(rows);
    }

    method ReadOptRows(present: bool, count: nat, width: nat) returns (r: Result<Option<Rows>>)
      modifies this
      ensures Follows(r, pos, OptRowsAt(RowsOf(data), old(pos), present, count, width))
    {
      if !present { return Ok(None); }
      var rows :- ReadRows(count, width);
      r := Ok(Some(rows));
    }

    method ReadIndices(count: nat, vertices: nat) returns (r: Result<seq<Word>>)
      modifies this
      ensures Follows(r, pos, Many(IndexItem(data, vertices), old(pos), count))
    {
      var ws: seq<Word> := [];
      var i := 0;
      while i < count
        invariant 0 <= i <= count
        invariant Many(IndexItem(data, vertices), old(pos), i) == At(ws, pos)
      {
        ManyNext(IndexItem(data, vertices), old(pos), i, ws, pos, count);
        var w := U32();
        if w.Err? { return Err(w.error); }
        if w.value >= vertices { return Err(IndexOutOfRange); }
        ws := ws + [w.value];
        i := i + 1;
      }
      r := Ok(ws);
    }

    method ReadBone(index: nat) returns (r: Result<Bone>)
      modifies this
      ensures Follows(r, pos, BoneAt(data, old(pos), index))
    {
      var parent :- U32();
      var flags :- Take(4);
      var cframe :- U32s(12);
      var len :- U32();
      var name :- Take(len);
      if !Valid(name) { return Err(BadBoneName); }
      var padded: int := (len as int + 3) / 4 * 4;
      var _ :- Take(padded - len);
      if parent != NONE && parent >= index { return Err(ParentAfterChild); }
      r := Ok(Bone(name, if parent == NONE then None else Some(parent), cframe, flags[0] != 0));
    }

    method ReadBones(count: nat) returns (r: Result<seq<Bone>>)
      modifies this
      ensures Follows(r, pos, Many(BoneItem(data), old(pos), count))
    {
      var bones := [];
      var i := 0;
      while i < count
        invariant 0 <= i <= count
        invariant Many(BoneItem(data), old(pos), i) == At(bones, pos)
      {
        ManyNext(BoneItem(data), old(pos), i, bones, pos, count);
        assert BoneItem(data)(i, pos) == BoneAt(data, pos, i);
        var b := ReadBone(i);
        if b.Err? { return Err(b.error); }
        bones := bones + [b.value];
        i := i + 1;
      }
      r := Ok(bones);
    }

    method ReadHeader() returns (r: Result<Header>)
      requires pos == 0
      modifies this
      ensures Follows(r, pos, HeaderAt(data))
    {
      var magic :- U32();
      if magic != MAGIC { return Err(BadMagic); }
      var version :- U32();
      if version != VERSION { return Err(BadVersion); }
      var vertices :- U32();
      var indices :- U32();
      var flags :- U32();
      var bones :- U32();
      if indices % 3 != 0 { return Err(BadIndexCount); }
      r := Ok(Header(vertices, indices, flags, bones));
    }

    method ReadAttributes(vertices: nat, has: Present) returns (r: Result<Attributes>)
      modifies this
      ensures Follows(r, pos, AttributesAt(RowsOf(data), old(pos), vertices, has))
    {
      var positions :- ReadRows(vertices, 3);
      var normals :- ReadOptRows(has.normals, vertices, 3);
      var uvs :- ReadOptRows(has.uvs, vertices, 2);
      var colors :- ReadOptRows(has.colors, vertices, 4);
      var joints :- ReadOptRows(has.skin, vertices, 4);
      var weights :- ReadOptRows(has.skin, vertices, 4);
      r := Ok(Attributes(positions, normals, uvs, colors, joints, weights));
    }

    method ReadBody(h: Header) returns (r: Result<Mesh>)
      modifies this
      ensures Follows(r, pos, BodyAt(data, old(pos), h))
    {
      var a :- ReadAttributes(h.vertices, PresentIn(h.flags));
      var indices :- ReadIndices(h.indices, h.vertices);
      var bones :- ReadBones(h.bones);
      if a.joints.Some? {
        var ok := CheckJoints(a.joints.value, h.bones);
        if !ok { return Err(JointOutOfRange); }
      }
      r := Ok(Mesh(a.positions, a.normals, a.uvs, a.colors, a.joints, a.weights, indices, bones));
    }
  }

  method CheckJoints(joints: Rows, bones: nat) returns (ok: bool)
    ensures ok <==> JointsOk(joints, bones)
  {
    for v := 0 to |joints|
      invariant JointsOk(joints[..v], bones)
    {
      for k := 0 to |joints[v]|
        invariant forall i :: 0 <= i < k ==> JointOk(joints[v][i], bones)
      {
        if joints[v][k] != NONE && joints[v][k] >= bones { return false; }
      }
    }
    assert joints[..|joints|] == joints;
    ok := true;
  }

  /** One more item: it joins those before it, or ends the parse however many follow. */
  lemma ManyNext<T(!new)>(item: (nat, nat) -> Parsed<T>, pos: nat, i: nat, ts: seq<T>, p: nat, count: nat)
    requires i < count && Many(item, pos, i) == At(ts, p)
    ensures match item(i, p)
            case At(t, q) => Many(item, pos, i + 1) == At(ts + [t], q)
            case Bad(e) => Many(item, pos, count) == Bad(e)
  {
    if item(i, p).Bad? { ManyStops(item, pos, i + 1, count); }
  }

  lemma {:induction false} ManyStops<T(!new)>(item: (nat, nat) -> Parsed<T>, pos: nat, i: nat, count: nat)
    requires i <= count && Many(item, pos, i).Bad?
    ensures Many(item, pos, count) == Many(item, pos, i)
  {
    if i < count { ManyStops(item, pos, i, count - 1); }
  }

  // ------------------------------------------------------------------ round trip

  /** data reads b from position pos. */
  predicate Reads(data: seq<Byte>, pos: nat, b: seq<Byte>) {
    pos + |b| <= |data| && data[pos..pos + |b|] == b
  }

  lemma ReadsSplit(data: seq<Byte>, pos: nat, a: seq<Byte>, b: seq<Byte>)
    requires Reads(data, pos, a + b)
    ensures Reads(data, pos, a) && Reads(data, pos + |a|, b)
  {
    var w := data[pos..pos + |a + b|];
    assert w[..|a|] == a && w[|a|..] == b;
    assert data[pos..pos + |a|] == w[..|a|];
    assert data[pos + |a|..pos + |a| + |b|] == w[|a|..];
  }

  lemma WordReads(data: seq<Byte>, pos: nat, w: Word)
    requires Reads(data, pos, Le(w))
    ensures WordAt(data, pos) == At(w, pos + 4)
  {
    FromLeLe(w);
  }

  /** Each item printed anywhere in data reads back there. */
  ghost predicate ItemsBack<T(!new)>(data: seq<Byte>, item: (nat, nat) -> Parsed<T>, print1: T -> seq<Byte>, ts: seq<T>) {
    forall i: nat, p: nat :: i < |ts| && Reads(data, p, print1(ts[i])) ==> item(i, p) == At(ts[i], p + |print1(ts[i])|)
  }

  /** If each item reads back, the items read back. */
  lemma {:induction false} ManyReads<T(!new)>(data: seq<Byte>, pos: nat, item: (nat, nat) -> Parsed<T>,
    print1: T -> seq<Byte>, ts: seq<T>)
    requires Reads(data, pos, Each(print1, ts)) && ItemsBack(data, item, print1, ts)
    ensures Many(item, pos, |ts|) == At(ts, pos + |Each(print1, ts)|)
  {
    if ts != [] {
      var n := |ts| - 1;
      ReadsSplit(data, pos, Each(print1, ts[..n]), print1(ts[n]));
      assert ItemsBack(data, item, print1, ts[..n]);
      ManyReads(data, pos, item, print1, ts[..n]);
      assert ts[..n] + [ts[n]] == ts;
    }
  }

  lemma WordsRead(data: seq<Byte>, pos: nat, ws: seq<Word>)
    requires Reads(data, pos, Words(ws))
    ensures WordsAt(data, pos, |ws|) == At(ws, pos + |Words(ws)|)
  {
    forall i: nat, p: nat | i < |ws| && Reads(data, p, WordBytes(ws[i]))
      ensures WordItem(data)(i, p) == At(ws[i], p + |WordBytes(ws[i])|)
    {
      WordReads(data, p, ws[i]);
    }
    ManyReads(data, pos, WordItem(data), WordBytes, ws);
  }

  lemma RowsRead(data: seq<Byte>, pos: nat, rows: Rows, width: nat)
    requires Reads(data, pos, RowBytes(rows)) && RowsShaped(rows, |rows|, width)
    ensures RowsAt(data, pos, |rows|, width) == At(rows, pos + |RowBytes(rows)|)
  {
    forall i: nat, p: nat | i < |rows| && Reads(data, p, Words(rows[i]))
      ensures RowItem(data, width)(i, p) == At(rows[i], p + |Words(rows[i])|)
    {
      WordsRead(data, p, rows[i]);
    }
    ManyReads(data, pos, RowItem(data, width), Words, rows);
  }

  /** rows reads back from data whatever rows bytes printed there. */
  ghost predicate ReadsBack(rows: RowReader, bytes: RowPrinter, data: seq<Byte>) {
    forall p: nat, rs: Rows, width: nat | Reads(data, p, bytes(rs)) && RowsShaped(rs, |rs|, width) ::
      rows(p, |rs|, width) == At(rs, p + |bytes(rs)|)
  }

  lemma RowsOfReadsBack(data: seq<Byte>)
    ensures ReadsBack(RowsOf(data), RowBytes, data)
  {
    forall p: nat, rs: Rows, width: nat | Reads(data, p, RowBytes(rs)) && RowsShaped(rs, |rs|, width)
      ensures RowsOf(data)(p, |rs|, width) == At(rs, p + |RowBytes(rs)|)
    {
      RowsRead(data, p, rs, width);
    }
  }

  lemma IndicesBack(data: seq<Byte>, ws: seq<Word>, vertices: nat)
    requires forall i :: 0 <= i < |ws| ==> ws[i] < vertices
    ensures ItemsBack(data, IndexItem(data, vertices), WordBytes, ws)
  {
    forall i: nat, p: nat | i < |ws| && Reads(data, p, WordBytes(ws[i]))
      ensures IndexItem(data, vertices)(i, p) == At(ws[i], p + |WordBytes(ws[i])|)
    {
      WordReads(data, p, ws[i]);
    }
  }

  lemma BoneHeadReads(data: seq<Byte>, pos: nat, b: Bone)
    requires Reads(data, pos, BoneHead(b)) && |b.cframe| == 12
    ensures WordAt(data, pos) == At(if b.parent.Some? then b.parent.value else NONE, pos + 4)
    ensures TakeAt(data, pos + 4, 4) == At([if b.isVirtual then 1 else 0, 0, 0, 0], pos + 8)
    ensures WordsAt(data, pos + 8, 12) == At(b.cframe, pos + 56)
  {
    var parent := if b.parent.Some? then b.parent.value else NONE;
    var flags: seq<Byte> := [if b.isVirtual then 1 else 0, 0, 0, 0];
    ReadsSplit(data, pos, Le(parent) + flags, Words(b.cframe));
    ReadsSplit(data, pos, Le(parent), flags);
    WordReads(data, pos, parent);
    WordsRead(data, pos + 8, b.cframe);
    WordsLength(b.cframe);
  }

  lemma NameReads(data: seq<Byte>, pos: nat, name: seq<Byte>)
    requires Reads(data, pos, NameBytes(name)) && |name| < WORDS
    ensures WordAt(data, pos) == At(|name|, pos + 4)
    ensures TakeAt(data, pos + 4, |name|) == At(name, pos + 4 + |name|)
    ensures TakeAt(data, pos + 4 + |name|, Pad(|name|)).At?
  {
    ReadsSplit(data, pos, Le(|name|) + name, Zeros(Pad(|name|)));
    ReadsSplit(data, pos, Le(|name|), name);
    WordReads(data, pos, |name|);
  }

  lemma BoneReads(data: seq<Byte>, pos: nat, b: Bone, index: nat)
    requires Reads(data, pos, BoneBytes(b)) && BoneOk(b, index) && index <= NONE
    ensures BoneAt(data, pos, index) == At(b, pos + |BoneBytes(b)|)
  {
    ReadsSplit(data, pos, BoneHead(b), NameBytes(b.name));
    WordsLength(b.cframe);
    BoneHeadReads(data, pos, b);
    NameReads(data, pos + 56, b.name);
  }

  lemma BonesBack(data: seq<Byte>, bones: seq<Bone>)
    requires |bones| < WORDS && forall i :: 0 <= i < |bones| ==> BoneOk(bones[i], i)
    ensures ItemsBack(data, BoneItem(data), BoneBytes, bones)
  {
    forall i: nat, p: nat | i < |bones| && Reads(data, p, BoneBytes(bones[i]))
      ensures BoneItem(data)(i, p) == At(bones[i], p + |BoneBytes(bones[i])|)
    {
      BoneReads(data, p, bones[i], i);
    }
  }

  lemma HeaderReads(data: seq<Byte>, m: Mesh)
    requires WellFormed(m) && Reads(data, 0, HeaderBytes(m))
    ensures HeaderAt(data) == At(HeaderOf(m), 24)
  {
    var h1 := Le(MAGIC);
    var h2 := h1 + Le(VERSION);
    var h3 := h2 + Le(|m.positions|);
    var h4 := h3 + Le(|m.indices|);
    var h5 := h4 + Le(Flags(m));
    ReadsSplit(data, 0, h5, Le(|m.bones|));
    ReadsSplit(data, 0, h4, Le(Flags(m)));
    ReadsSplit(data, 0, h3, Le(|m.indices|));
    ReadsSplit(data, 0, h2, Le(|m.positions|));
    ReadsSplit(data, 0, h1, Le(VERSION));
    WordReads(data, 0, MAGIC);
    WordReads(data, 4, VERSION);
    WordReads(data, 8, |m.positions|);
    WordReads(data, 12, |m.indices|);
    WordReads(data, 16, Flags(m));
    WordReads(data, 20, |m.bones|);
  }

  function AttributesOf(m: Mesh): Attributes {
    Attributes(m.positions, m.normals, m.uvs, m.colors, m.joints, m.weights)
  }

  function HeaderOf(m: Mesh): Header
    requires WellFormed(m)
  {
    Header(|m.positions|, |m.indices|, Flags(m), |m.bones|)
  }

  function PresentOf(m: Mesh): Present {
    Present(m.normals.Some?, m.uvs.Some?, m.colors.Some?, Skinned(m))
  }

  lemma AttributesRead(rows: RowReader, bytes: RowPrinter, data: seq<Byte>, pos: nat, m: Mesh)
    requires ReadsBack(rows, bytes, data)
    requires AttributesShaped(m) && Reads(data, pos, AttributeBytes(bytes, m))
    ensures AttributesAt(rows, pos, |m.positions|, PresentOf(m)) == At(AttributesOf(m), pos + |AttributeBytes(bytes, m)|)
  {
    ReadsSplit(data, pos, VertexBytes(bytes, m), SkinBytes(bytes, m));
    var p1, p2, p3, p4 := VertexRead(rows, bytes, data, pos, m);
    var p5 := SkinReads(rows, bytes, data, p4, m);
  }

  /** Two optional attributes in a row, and the positions behind each. */
  lemma PairRead(rows: RowReader, bytes: RowPrinter, data: seq<Byte>, pos: nat, a: Option<Rows>, b: Option<Rows>,
    count: nat, widthA: nat, widthB: nat) returns (q1: nat, q2: nat)
    requires ReadsBack(rows, bytes, data)
    requires OptShaped(a, count, widthA) && OptShaped(b, count, widthB)
    requires Reads(data, pos, OptBytes(bytes, a) + OptBytes(bytes, b))
    ensures OptRowsAt(rows, pos, a.Some?, count, widthA) == At(a, q1)
    ensures OptRowsAt(rows, q1, b.Some?, count, widthB) == At(b, q2)
    ensures q2 == pos + |OptBytes(bytes, a) + OptBytes(bytes, b)|
  {
    ReadsSplit(data, pos, OptBytes(bytes, a), OptBytes(bytes, b));
    q1 := pos + |OptBytes(bytes, a)|;
    q2 := q1 + |OptBytes(bytes, b)|;
  }

  lemma VertexRead(rows: RowReader, bytes: RowPrinter, data: seq<Byte>, pos: nat, m: Mesh)
    returns (p1: nat, p2: nat, p3: nat, p4: nat)
    requires ReadsBack(rows, bytes, data)
    requires AttributesShaped(m) && Reads(data, pos, VertexBytes(bytes, m))
    ensures rows(pos, |m.positions|, 3) == At(m.positions, p1)
    ensures OptRowsAt(rows, p1, m.normals.Some?, |m.positions|, 3) == At(m.normals, p2)
    ensures OptRowsAt(rows, p2, m.uvs.Some?, |m.positions|, 2) == At(m.uvs, p3)
    ensures OptRowsAt(rows, p3, m.colors.Some?, |m.positions|, 4) == At(m.colors, p4)
    ensures p4 == pos + |VertexBytes(bytes, m)|
  {
    var v := |m.positions|;
    ReadsSplit(data, pos, OptBytes(bytes, Some(m.positions)) + OptBytes(bytes, m.normals),
               OptBytes(bytes, m.uvs) + OptBytes(bytes, m.colors));
    p1, p2 := PairRead(rows, bytes, data, pos, Some(m.positions), m.normals, v, 3, 3);
    p3, p4 := PairRead(rows, bytes, data, p2, m.uvs, m.colors, v, 2, 4);
  }

  lemma SkinReads(rows: RowReader, bytes: RowPrinter, data: seq<Byte>, pos: nat, m: Mesh) returns (p5: nat)
    requires ReadsBack(rows, bytes, data)
    requires AttributesShaped(m) && Reads(data, pos, SkinBytes(bytes, m))
    ensures OptRowsAt(rows, pos, Skinned(m), |m.positions|, 4) == At(m.joints, p5)
    ensures OptRowsAt(rows, p5, Skinned(m), |m.positions|, 4) == At(m.weights, pos + |SkinBytes(bytes, m)|)
  {
    p5 := pos;
    if Skinned(m) {
      ReadsSplit(data, pos, bytes(m.joints.value), bytes(m.weights.value));
      p5 := pos + |bytes(m.joints.value)|;
    }
  }

  lemma TopologyReads(index: (nat, nat) -> Parsed<Word>, bone: (nat, nat) -> Parsed<Bone>, data: seq<Byte>, pos: nat,
    indices: seq<Word>, bones: seq<Bone>, printWord: Word -> seq<Byte>, printBone: Bone -> seq<Byte>)
    returns (p2: nat, p3: nat)
    requires ItemsBack(data, index, printWord, indices) && ItemsBack(data, bone, printBone, bones)
    requires Reads(data, pos, Each(printWord, indices) + Each(printBone, bones))
    ensures Many(index, pos, |indices|) == At(indices, p2)
    ensures Many(bone, p2, |bones|) == At(bones, p3)
    ensures p3 == pos + |Each(printWord, indices) + Each(printBone, bones)|
  {
    ReadsSplit(data, pos, Each(printWord, indices), Each(printBone, bones));
    ManyReads(data, pos, index, printWord, indices);
    p2 := pos + |Each(printWord, indices)|;
    ManyReads(data, p2, bone, printBone, bones);
    p3 := p2 + |Each(printBone, bones)|;
  }

  /** Parses of the parts that follow one another make the parse of the body. */
  lemma BodyCompose(rows: RowReader, index: (nat, nat) -> Parsed<Word>, bone: (nat, nat) -> Parsed<Bone>,
    pos: nat, m: Mesh, p1: nat, p2: nat, p3: nat)
    requires AttributesAt(rows, pos, |m.positions|, PresentOf(m)) == At(AttributesOf(m), p1)
    requires Many(index, p1, |m.indices|) == At(m.indices, p2)
    requires Many(bone, p2, |m.bones|) == At(m.bones, p3)
    requires m.joints.Some? ==> JointsOk(m.joints.value, |m.bones|)
    ensures BodyOf(rows, index, bone, pos, |m.positions|, PresentOf(m), |m.indices|, |m.bones|) == At(m, p3)
  {
  }

  /** What reads back in parts reads back as the body. */
  lemma BodyReads(rows: RowReader, index: (nat, nat) -> Parsed<Word>, bone: (nat, nat) -> Parsed<Bone>,
    data: seq<Byte>, pos: nat, m: Mesh, bytes: RowPrinter, printWord: Word -> seq<Byte>, printBone: Bone -> seq<Byte>)
    requires ReadsBack(rows, bytes, data)
    requires ItemsBack(data, index, printWord, m.indices) && ItemsBack(data, bone, printBone, m.bones)
    requires AttributesShaped(m) && (m.joints.Some? ==> JointsOk(m.joints.value, |m.bones|))
    requires Reads(data, pos, AttributeBytes(bytes, m))
    requires Reads(data, pos + |AttributeBytes(bytes, m)|, Each(printWord, m.indices) + Each(printBone, m.bones))
    ensures BodyOf(rows, index, bone, pos, |m.positions|, PresentOf(m), |m.indices|, |m.bones|)
            == At(m, pos + |AttributeBytes(bytes, m)| + |Each(printWord, m.indices) + Each(printBone, m.bones)|)
  {
    var p1 := pos + |AttributeBytes(bytes, m)|;
    AttributesRead(rows, bytes, data, pos, m);
    var p2, p3 := TopologyReads(index, bone, data, p1, m.indices, m.bones, printWord, printBone);
    BodyCompose(rows, index, bone, pos, m, p1, p2, p3);
  }

  lemma PartsBack(data: seq<Byte>, m: Mesh)
    requires WellFormed(m)
    ensures ReadsBack(RowsOf(data), RowBytes, data)
    ensures ItemsBack(data, IndexItem(data, |m.positions|), WordBytes, m.indices)
    ensures ItemsBack(data, BoneItem(data), BoneBytes, m.bones)
  {
    RowsOfReadsBack(data);
    IndicesBack(data, m.indices, |m.positions|);
    BonesBack(data, m.bones);
  }

  lemma EncodedParts(data: seq<Byte>, m: Mesh)
    requires Reads(data, 0, Encode(m))
    ensures Reads(data, 0, HeaderBytes(m))
    ensures Reads(data, 24, AttributeBytes(RowBytes, m))
    ensures Reads(data, 24 + |AttributeBytes(RowBytes, m)|, TopologyBytes(m))
    ensures |Encode(m)| == 24 + |AttributeBytes(RowBytes, m)| + |TopologyBytes(m)|
  {
    ThreeParts(data, HeaderBytes(m), AttributeBytes(RowBytes, m), TopologyBytes(m));
  }

  lemma ThreeParts(data: seq<Byte>, a: seq<Byte>, b: seq<Byte>, c: seq<Byte>)
    requires Reads(data, 0, a + b + c)
    ensures Reads(data, 0, a) && Reads(data, |a|, b) && Reads(data, |a| + |b|, c)
  {
    ReadsSplit(data, 0, a + b, c);
    ReadsSplit(data, 0, a, b);
  }

  lemma BlobReads(data: seq<Byte>, m: Mesh)
    requires WellFormed(m) && Reads(data, 0, Encode(m))
    ensures HeaderAt(data) == At(HeaderOf(m), 24)
    ensures BodyAt(data, 24, HeaderOf(m)) == At(m, |Encode(m)|)
  {
    EncodedParts(data, m);
    HeaderReads(data, m);
    BodyAtReads(data, m);
  }

  lemma BodyAtReads(data: seq<Byte>, m: Mesh)
    requires WellFormed(m) && Reads(data, 24, AttributeBytes(RowBytes, m))
    requires Reads(data, 24 + |AttributeBytes(RowBytes, m)|, TopologyBytes(m))
    ensures BodyAt(data, 24, HeaderOf(m)) == At(m, 24 + |AttributeBytes(RowBytes, m)| + |TopologyBytes(m)|)
  {
    PartsBack(data, m);
    FlagsSayPresent(m);
    BodyOfParts(data, HeaderOf(m), m);
  }

  lemma BodyOfParts(data: seq<Byte>, h: Header, m: Mesh)
    requires h.vertices == |m.positions| && h.indices == |m.indices| && h.bones == |m.bones| && PresentIn(h.flags) == PresentOf(m)
    requires ReadsBack(RowsOf(data), RowBytes, data)
    requires ItemsBack(data, IndexItem(data, |m.positions|), WordBytes, m.indices) && ItemsBack(data, BoneItem(data), BoneBytes, m.bones)
    requires AttributesShaped(m) && (m.joints.Some? ==> JointsOk(m.joints.value, |m.bones|))
    requires Reads(data, 24, AttributeBytes(RowBytes, m))
    requires Reads(data, 24 + |AttributeBytes(RowBytes, m)|, TopologyBytes(m))
    ensures BodyAt(data, 24, h) == At(m, 24 + |AttributeBytes(RowBytes, m)| + |TopologyBytes(m)|)
  {
    BodyReads(RowsOf(data), IndexItem(data, |m.positions|), BoneItem(data), data, 24, m, RowBytes, WordBytes, BoneBytes);
  }

  lemma FlagsSayPresent(m: Mesh)
    ensures PresentIn(Flags(m)) == PresentOf(m)
  {
  }

  // -------------------------------------------------------------------- soundness

  lemma {:induction false} ManySatisfies<T(!new)>(item: (nat, nat) -> Parsed<T>, ok: (nat, T) -> bool, pos: nat, count: nat)
    requires forall i: nat, p: nat :: item(i, p).At? ==> ok(i, item(i, p).value)
    requires Many(item, pos, count).At?
    ensures forall i :: 0 <= i < count ==> ok(i, Many(item, pos, count).value[i])
  {
    if 0 < count { ManySatisfies(item, ok, pos, count - 1); }
  }

  lemma RowsAreShaped(data: seq<Byte>, pos: nat, count: nat, width: nat)
    requires RowsAt(data, pos, count, width).At?
    ensures RowsShaped(RowsAt(data, pos, count, width).value, count, width)
  {
    var ok := (_: nat, row: seq<Word>) => |row| == width;
    ManySatisfies(RowItem(data, width), ok, pos, count);
    assert forall i :: 0 <= i < count ==> ok(i, RowsAt(data, pos, count, width).value[i]);
  }

  ghost predicate YieldsShaped(rows: RowReader) {
    forall p, count, width :: rows(p, count, width).At? ==> RowsShaped(rows(p, count, width).value, count, width)
  }

  lemma AttributesAreShaped(rows: RowReader, pos: nat, vertices: nat, has: Present)
    requires YieldsShaped(rows) && AttributesAt(rows, pos, vertices, has).At?
    ensures var a := AttributesAt(rows, pos, vertices, has).value;
            && RowsShaped(a.positions, vertices, 3) && OptShaped(a.normals, vertices, 3)
            && OptShaped(a.uvs, vertices, 2) && OptShaped(a.colors, vertices, 4)
            && OptShaped(a.joints, vertices, 4) && OptShaped(a.weights, vertices, 4)
            && (a.joints.Some? <==> a.weights.Some?)
  {
  }

  /** Decoding never yields a mesh the format does not promise. */
  lemma DecodeIsWellFormed(data: seq<Byte>)
    requires Decode(data).Ok?
    ensures WellFormed(Decode(data).value)
  {
    var (h, pos) := (HeaderAt(data).value, HeaderAt(data).pos);
    var has := PresentIn(h.flags);
    forall p, count, width | RowsOf(data)(p, count, width).At?
      ensures RowsShaped(RowsOf(data)(p, count, width).value, count, width)
    {
      RowsAreShaped(data, p, count, width);
    }
    AttributesAreShaped(RowsOf(data), pos, h.vertices, has);
    var p1 := AttributesAt(RowsOf(data), pos, h.vertices, has).pos;
    var inRange := (_: nat, w: Word) => w < h.vertices;
    ManySatisfies(IndexItem(data, h.vertices), inRange, p1, h.indices);
    var indices := Many(IndexItem(data, h.vertices), p1, h.indices);
    assert forall i :: 0 <= i < h.indices ==> inRange(i, indices.value[i]);
    var boneOk := (i: nat, b: Bone) => BoneOk(b, i);
    ManySatisfies(BoneItem(data), boneOk, indices.pos, h.bones);
    var bones := Many(BoneItem(data), indices.pos, h.bones);
    assert forall i :: 0 <= i < h.bones ==> boneOk(i, bones.value[i]);
  }

  /** The round trip, with no assumption on m: a mesh survives printing and parsing
      exactly when it is well formed, whatever bytes follow the blob. */
  lemma RoundTripIff(m: Mesh, trailing: seq<Byte>)
    ensures Decode(Encode(m) + trailing) == Ok(m) <==> WellFormed(m)
  {
    if WellFormed(m) {
      var data := Encode(m) + trailing;
      assert data[0..|Encode(m)|] == Encode(m);
      BlobReads(data, m);
    } else if Decode(Encode(m) + trailing).Ok? {
      DecodeIsWellFormed(Encode(m) + trailing);
    }
  }

  /** Parsing is idempotent through the printer: whatever non-canonical blob was
      accepted (extra flag bits, non-zero padding), re-encoding loses nothing. */
  lemma ReencodeDecoded(data: seq<Byte>)
    requires Decode(data).Ok?
    ensures Decode(Encode(Decode(data).value)) == Decode(data)
  {
    DecodeIsWellFormed(data);
    var m := Decode(data).value;
    RoundTripIff(m, []);
    assert Encode(m) + [] == Encode(m);
  }

  /** Equal blobs come from equal meshes. */
  lemma EncodeInjective(a: Mesh, b: Mesh)
    requires WellFormed(a) && WellFormed(b) && Encode(a) == Encode(b)
    ensures a == b
  {
    RoundTripIff(a, []);
    RoundTripIff(b, []);
    assert Ok(a) == Ok(b);
  }

  /** m comes back unchanged when its blob is all there is. */
  ghost predicate Streams(m: Mesh) {
    Decode(Encode(m)) == Ok(m)
  }

  lemma StreamsIff(m: Mesh)
    ensures Streams(m) <==> WellFormed(m)
  {
    RoundTripIff(m, []);
    assert Encode(m) + [] == Encode(m);
  }
}
