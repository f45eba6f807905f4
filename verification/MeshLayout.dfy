/** The blob layout, byte by byte (rodeo-client/src/runtime/mesh.rs:12-29), of what the
    printer puts out and of what the parser accepts. Offsets and bytes are those of the
    format; a mesh here has the row widths its types say. */
module MeshLayout {
  import opened Options
  import opened Utf8
  import opened MeshCodec

  // -------------------------------------------------------------------- words and rows

  /** Four bytes at a position, low byte first. */
  predicate HasWord(data: seq<Byte>, pos: nat, w: nat) {
    && pos + 4 <= |data|
    && data[pos] == w % 256 && data[pos + 1] == w / 256 % 256
    && data[pos + 2] == w / 65536 % 256 && data[pos + 3] == w / 16777216 % 256
  }

  predicate HasWords(data: seq<Byte>, pos: nat, ws: seq<Word>) {
    pos + 4 * |ws| <= |data| && forall k :: 0 <= k < |ws| ==> HasWord(data, pos + 4 * k, ws[k])
  }

  ghost predicate Wide(rows: Rows, width: nat) {
    forall v :: 0 <= v < |rows| ==> |rows[v]| == width
  }

  /** Row v begins at 4 * (width * v), its components follow one another. */
  predicate HasRows(data: seq<Byte>, pos: nat, rows: Rows, width: nat) {
    && pos + 4 * (width * |rows|) <= |data|
    && forall v :: 0 <= v < |rows| ==> HasWords(data, pos + 4 * (width * v), rows[v])
  }

  lemma ReadsIff(data: seq<Byte>, pos: nat, a: seq<Byte>, b: seq<Byte>)
    ensures Reads(data, pos, a + b) <==> Reads(data, pos, a) && Reads(data, pos + |a|, b)
  {
    if Reads(data, pos, a + b) {
      ReadsSplit(data, pos, a, b);
    }
    if Reads(data, pos, a) && Reads(data, pos + |a|, b) {
      assert data[pos..pos + |a + b|] == data[pos..pos + |a|] + data[pos + |a|..pos + |a| + |b|];
    }
  }

  lemma WordIff(data: seq<Byte>, pos: nat, w: nat)
    ensures Reads(data, pos, Le(w)) <==> HasWord(data, pos, w)
  {
    if pos + 4 <= |data| {
      assert data[pos..pos + 4] == [data[pos], data[pos + 1], data[pos + 2], data[pos + 3]];
    }
  }

  lemma {:induction false} WordsIff(data: seq<Byte>, pos: nat, ws: seq<Word>)
    ensures Reads(data, pos, Words(ws)) <==> HasWords(data, pos, ws)
    ensures |Words(ws)| == 4 * |ws|
  {
    WordsLength(ws);
    if ws != [] {
      var n := |ws| - 1;
      WordsIff(data, pos, ws[..n]);
      ReadsIff(data, pos, Words(ws[..n]), WordBytes(ws[n]));
      WordIff(data, pos + 4 * n, ws[n]);
    }
  }

  lemma OneMoreRow(width: nat, n: nat)
    ensures 4 * (width * (n + 1)) == 4 * (width * n) + 4 * width
  {
  }

  lemma RowsSplit(data: seq<Byte>, pos: nat, rows: Rows, width: nat, n: nat)
    requires n + 1 == |rows| && HasRows(data, pos, rows, width)
    ensures HasRows(data, pos, rows[..n], width) && HasWords(data, pos + 4 * (width * n), rows[n])
  {
    OneMoreRow(width, n);
    forall v | 0 <= v < n ensures HasWords(data, pos + 4 * (width * v), rows[..n][v]) {
      assert HasWords(data, pos + 4 * (width * v), rows[v]);
    }
  }

  lemma RowsJoin(data: seq<Byte>, pos: nat, rows: Rows, width: nat, n: nat)
    requires n + 1 == |rows| && |rows[n]| == width
    requires HasRows(data, pos, rows[..n], width) && HasWords(data, pos + 4 * (width * n), rows[n])
    ensures HasRows(data, pos, rows, width)
  {
    OneMoreRow(width, n);
    forall v | 0 <= v < |rows| ensures HasWords(data, pos + 4 * (width * v), rows[v]) {
      if v < n { assert HasWords(data, pos + 4 * (width * v), rows[..n][v]); }
    }
  }

  lemma {:induction false} RowsIff(data: seq<Byte>, pos: nat, rows: Rows, width: nat)
    requires Wide(rows, width)
    ensures Reads(data, pos, RowBytes(rows)) <==> HasRows(data, pos, rows, width)
    ensures |RowBytes(rows)| == 4 * (width * |rows|)
  {
    if rows != [] {
      var n := |rows| - 1;
      RowsIff(data, pos, rows[..n], width);
      ReadsIff(data, pos, RowBytes(rows[..n]), Words(rows[n]));
      WordsIff(data, pos + 4 * (width * n), rows[n]);
      OneMoreRow(width, n);
      if HasRows(data, pos, rows, width) { RowsSplit(data, pos, rows, width, n); }
      if HasRows(data, pos, rows[..n], width) && HasWords(data, pos + 4 * (width * n), rows[n]) { RowsJoin(data, pos, rows, width, n); }
    }
  }

  lemma TwoIff(data: seq<Byte>, pos: nat, a: seq<Byte>, b: seq<Byte>, p1: nat, p2: nat)
    requires |a| == p1 - pos && |b| == p2 - p1
    ensures Reads(data, pos, a + b) <==> Reads(data, pos, a) && Reads(data, p1, b)
    ensures pos + |a + b| == p2
  {
    ReadsIff(data, pos, a, b);
  }

  // ------------------------------------------------------------------------ attributes

  /** The bytes an attribute takes. */
  function Room(rows: Option<Rows>, width: nat): nat {
    if rows.Some? then 4 * (width * |rows.value|) else 0
  }

  predicate HasOptRows(data: seq<Byte>, pos: nat, rows: Option<Rows>, width: nat) {
    if rows.Some? then HasRows(data, pos, rows.value, width) else pos <= |data|
  }

  lemma OptRowsIff(data: seq<Byte>, pos: nat, rows: Option<Rows>, width: nat)
    requires rows.Some? ==> Wide(rows.value, width)
    ensures Reads(data, pos, OptBytes(RowBytes, rows)) <==> HasOptRows(data, pos, rows, width)
    ensures |OptBytes(RowBytes, rows)| == Room(rows, width)
  {
    if rows.Some? { RowsIff(data, pos, rows.value, width); }
  }

  /** The widths of the types; a skin has joints and weights. */
  ghost predicate Typed(m: Mesh) {
    && Wide(m.positions, 3) && (m.normals.Some? ==> Wide(m.normals.value, 3)) && (m.uvs.Some? ==> Wide(m.uvs.value, 2))
    && (m.colors.Some? ==> Wide(m.colors.value, 4)) && (m.joints.Some? ==> Wide(m.joints.value, 4))
    && (m.weights.Some? ==> Wide(m.weights.value, 4)) && forall i :: 0 <= i < |m.bones| ==> |m.bones[i].cframe| == 12
  }

  function SkinOf(m: Mesh, rows: Option<Rows>): Option<Rows> {
    if m.joints.Some? && m.weights.Some? then rows else None
  }

  /** Where normals, uvs, colors, joints, weights, indices and bones begin. */
  function NormalsAt(m: Mesh): nat { 24 + 12 * |m.positions| }
  function UvsAt(m: Mesh): nat { NormalsAt(m) + Room(m.normals, 3) }
  function ColorsAt(m: Mesh): nat { UvsAt(m) + Room(m.uvs, 2) }
  function JointsAt(m: Mesh): nat { ColorsAt(m) + Room(m.colors, 4) }
  function WeightsAt(m: Mesh): nat { JointsAt(m) + Room(SkinOf(m, m.joints), 4) }
  function IndicesAt(m: Mesh): nat { WeightsAt(m) + Room(SkinOf(m, m.weights), 4) }
  function BonesAt(m: Mesh): nat { IndicesAt(m) + 4 * |m.indices| }

  predicate HasAttributes(m: Mesh, data: seq<Byte>) {
    && HasOptRows(data, 24, Some(m.positions), 3)
    && HasOptRows(data, NormalsAt(m), m.normals, 3)
    && HasOptRows(data, UvsAt(m), m.uvs, 2)
    && HasOptRows(data, ColorsAt(m), m.colors, 4)
    && HasOptRows(data, JointsAt(m), SkinOf(m, m.joints), 4)
    && HasOptRows(data, WeightsAt(m), SkinOf(m, m.weights), 4)
  }

  lemma PairIff(data: seq<Byte>, pos: nat, a: Option<Rows>, widthA: nat, b: Option<Rows>, widthB: nat)
    requires (a.Some? ==> Wide(a.value, widthA)) && (b.Some? ==> Wide(b.value, widthB))
    ensures var bytes := OptBytes(RowBytes, a) + OptBytes(RowBytes, b);
            && (Reads(data, pos, bytes) <==> HasOptRows(data, pos, a, widthA) && HasOptRows(data, pos + Room(a, widthA), b, widthB))
            && |bytes| == Room(a, widthA) + Room(b, widthB)
  {
    OptRowsIff(data, pos, a, widthA);
    OptRowsIff(data, pos + Room(a, widthA), b, widthB);
    TwoIff(data, pos, OptBytes(RowBytes, a), OptBytes(RowBytes, b), pos + Room(a, widthA), pos + Room(a, widthA) + Room(b, widthB));
  }

  lemma FourIff(data: seq<Byte>, pos: nat, a: seq<Byte>, b: seq<Byte>, c: seq<Byte>, d: seq<Byte>, p1: nat, p2: nat, p3: nat, p4: nat)
    requires |a| == p1 - pos && |b| == p2 - p1 && |c| == p3 - p2 && |d| == p4 - p3
    ensures Reads(data, pos, (a + b) + (c + d)) <==>
              Reads(data, pos, a) && Reads(data, p1, b) && Reads(data, p2, c) && Reads(data, p3, d)
    ensures pos + |(a + b) + (c + d)| == p4
  {
    ReadsIff(data, pos, a + b, c + d);
    ReadsIff(data, pos, a, b);
    ReadsIff(data, p2, c, d);
  }

  lemma VertexBytesAre(m: Mesh)
    requires Typed(m)
    ensures |OptBytes(RowBytes, Some(m.positions))| == NormalsAt(m) - 24 && |OptBytes(RowBytes, m.normals)| == UvsAt(m) - NormalsAt(m)
    ensures |OptBytes(RowBytes, m.uvs)| == ColorsAt(m) - UvsAt(m) && |OptBytes(RowBytes, m.colors)| == JointsAt(m) - ColorsAt(m)
  {
    OptRowsIff([], 0, Some(m.positions), 3);
    OptRowsIff([], 0, m.normals, 3);
    OptRowsIff([], 0, m.uvs, 2);
    OptRowsIff([], 0, m.colors, 4);
  }

  lemma VertexParts(bytes: RowPrinter, m: Mesh, data: seq<Byte>, p1: nat, p2: nat, p3: nat, p4: nat)
    requires |OptBytes(bytes, Some(m.positions))| == p1 - 24 && |OptBytes(bytes, m.normals)| == p2 - p1
    requires |OptBytes(bytes, m.uvs)| == p3 - p2 && |OptBytes(bytes, m.colors)| == p4 - p3
    ensures Reads(data, 24, VertexBytes(bytes, m)) <==>
              && Reads(data, 24, OptBytes(bytes, Some(m.positions))) && Reads(data, p1, OptBytes(bytes, m.normals))
              && Reads(data, p2, OptBytes(bytes, m.uvs)) && Reads(data, p3, OptBytes(bytes, m.colors))
    ensures 24 + |VertexBytes(bytes, m)| == p4
  {
    FourIff(data, 24, OptBytes(bytes, Some(m.positions)), OptBytes(bytes, m.normals), OptBytes(bytes, m.uvs), OptBytes(bytes, m.colors),
            p1, p2, p3, p4);
  }

  lemma VertexPartsIff(m: Mesh, data: seq<Byte>)
    requires Typed(m)
    ensures Reads(data, 24, OptBytes(RowBytes, Some(m.positions))) <==> HasOptRows(data, 24, Some(m.positions), 3)
    ensures Reads(data, NormalsAt(m), OptBytes(RowBytes, m.normals)) <==> HasOptRows(data, NormalsAt(m), m.normals, 3)
    ensures Reads(data, UvsAt(m), OptBytes(RowBytes, m.uvs)) <==> HasOptRows(data, UvsAt(m), m.uvs, 2)
    ensures Reads(data, ColorsAt(m), OptBytes(RowBytes, m.colors)) <==> HasOptRows(data, ColorsAt(m), m.colors, 4)
  {
    OptRowsIff(data, 24, Some(m.positions), 3);
    OptRowsIff(data, NormalsAt(m), m.normals, 3);
    OptRowsIff(data, UvsAt(m), m.uvs, 2);
    OptRowsIff(data, ColorsAt(m), m.colors, 4);
  }

  lemma VertexIff(m: Mesh, data: seq<Byte>)
    requires Typed(m)
    ensures Reads(data, 24, VertexBytes(RowBytes, m)) <==>
              && HasOptRows(data, 24, Some(m.positions), 3) && HasOptRows(data, NormalsAt(m), m.normals, 3)
              && HasOptRows(data, UvsAt(m), m.uvs, 2) && HasOptRows(data, ColorsAt(m), m.colors, 4)
    ensures 24 + |VertexBytes(RowBytes, m)| == JointsAt(m)
  {
    VertexBytesAre(m);
    VertexParts(RowBytes, m, data, NormalsAt(m), UvsAt(m), ColorsAt(m), JointsAt(m));
    VertexPartsIff(m, data);
  }

  lemma SkinIff(m: Mesh, data: seq<Byte>)
    requires Typed(m)
    ensures Reads(data, JointsAt(m), SkinBytes(RowBytes, m)) <==>
              HasOptRows(data, JointsAt(m), SkinOf(m, m.joints), 4) && HasOptRows(data, WeightsAt(m), SkinOf(m, m.weights), 4)
    ensures JointsAt(m) + |SkinBytes(RowBytes, m)| == IndicesAt(m)
  {
    if Skinned(m) { PairIff(data, JointsAt(m), m.joints, 4, m.weights, 4); }
  }

  lemma AttributesIff(m: Mesh, data: seq<Byte>)
    requires Typed(m)
    ensures Reads(data, 24, AttributeBytes(RowBytes, m)) <==> HasAttributes(m, data)
    ensures 24 + |AttributeBytes(RowBytes, m)| == IndicesAt(m)
  {
    VertexIff(m, data);
    SkinIff(m, data);
    TwoIff(data, 24, VertexBytes(RowBytes, m), SkinBytes(RowBytes, m), JointsAt(m), IndicesAt(m));
  }

  // ----------------------------------------------------------------------------- header

  /** RMSH, version 1, the counts, and the bits that say what is there. */
  predicate HasHeader(m: Mesh, data: seq<Byte>) {
    && 24 <= |data|
    && data[..4] == [0x52, 0x4D, 0x53, 0x48] && data[4..8] == [1, 0, 0, 0]
    && HasWord(data, 8, |m.positions|) && HasWord(data, 12, |m.indices|) && HasWord(data, 20, |m.bones|)
    && (data[16] % 2 == 1 <==> m.normals.Some?)
    && (data[16] / 2 % 2 == 1 <==> m.uvs.Some?)
    && (data[16] / 4 % 2 == 1 <==> m.colors.Some?)
    && (data[16] / 8 % 2 == 1 <==> m.joints.Some? && m.weights.Some?)
  }

  /** No other bit is set. */
  predicate TidyHeader(data: seq<Byte>) {
    24 <= |data| && data[16] < 16 && data[17..20] == [0, 0, 0]
  }

  lemma FlagBits(f: Byte)
    requires f < 16
    ensures f == f % 2 + 2 * (f / 2 % 2) + 4 * (f / 4 % 2) + 8 * (f / 8 % 2)
  {
  }

  lemma FlagsIff(m: Mesh, data: seq<Byte>)
    requires 24 <= |data|
    ensures HasWord(data, 16, Flags(m)) <==>
              && TidyHeader(data)
              && (data[16] % 2 == 1 <==> m.normals.Some?) && (data[16] / 2 % 2 == 1 <==> m.uvs.Some?)
              && (data[16] / 4 % 2 == 1 <==> m.colors.Some?) && (data[16] / 8 % 2 == 1 <==> Skinned(m))
  {
    var f := Flags(m);
    assert f < 16 && f / 256 == 0 && f / 65536 == 0 && f / 16777216 == 0;
    if data[16] < 16 { FlagBits(data[16]); }
    assert data[17..20] == [data[17], data[18], data[19]];
  }

  lemma SixWords(data: seq<Byte>, a: seq<Byte>, b: seq<Byte>, c: seq<Byte>, d: seq<Byte>, e: seq<Byte>, f: seq<Byte>)
    requires |a| == |b| == |c| == |d| == |e| == |f| == 4
    ensures Reads(data, 0, a + b + c + d + e + f) <==>
              Reads(data, 0, a) && Reads(data, 4, b) && Reads(data, 8, c) && Reads(data, 12, d) && Reads(data, 16, e) && Reads(data, 20, f)
  {
    ReadsIff(data, 0, a + b + c + d + e, f);
    ReadsIff(data, 0, a + b + c + d, e);
    ReadsIff(data, 0, a + b + c, d);
    ReadsIff(data, 0, a + b, c);
    ReadsIff(data, 0, a, b);
  }

  lemma MarksIff(data: seq<Byte>)
    requires 24 <= |data|
    ensures HasWord(data, 0, MAGIC) && HasWord(data, 4, VERSION) <==> data[..4] == [0x52, 0x4D, 0x53, 0x48] && data[4..8] == [1, 0, 0, 0]
  {
    assert data[..4] == [data[0], data[1], data[2], data[3]] && data[4..8] == [data[4], data[5], data[6], data[7]];
  }

  lemma HeaderIff(m: Mesh, data: seq<Byte>)
    ensures Reads(data, 0, HeaderBytes(m)) <==> HasHeader(m, data) && TidyHeader(data)
  {
    SixWords(data, Le(MAGIC), Le(VERSION), Le(|m.positions|), Le(|m.indices|), Le(Flags(m)), Le(|m.bones|));
    WordIff(data, 0, MAGIC);
    WordIff(data, 4, VERSION);
    WordIff(data, 8, |m.positions|);
    WordIff(data, 12, |m.indices|);
    WordIff(data, 16, Flags(m));
    WordIff(data, 20, |m.bones|);
    if 24 <= |data| {
      MarksIff(data);
      FlagsIff(m, data);
    }
  }

  // ------------------------------------------------------------------------------ bones

  /** A bone takes 60 bytes and its name, up to the next multiple of four. */
  function BoneSize(b: Bone): nat {
    60 + (|b.name| + 3) / 4 * 4
  }

  /** Parent, virtual flag, twelve components, name length, name. */
  predicate HasBone(b: Bone, data: seq<Byte>, pos: nat) {
    && pos + BoneSize(b) <= |data|
    && HasWord(data, pos, if b.parent.Some? then b.parent.value else 0xFFFF_FFFF)
    && (data[pos + 4] != 0 <==> b.isVirtual)
    && HasWords(data, pos + 8, b.cframe)
    && HasWord(data, pos + 56, |b.name|)
    && data[pos + 60..pos + 60 + |b.name|] == b.name
  }

  /** The flag is 0 or 1, and zeros fill the rest. */
  predicate TidyBone(b: Bone, data: seq<Byte>, pos: nat) {
    && pos + BoneSize(b) <= |data|
    && data[pos + 4] <= 1 && data[pos + 5..pos + 8] == [0, 0, 0]
    && forall i :: pos + 60 + |b.name| <= i < pos + BoneSize(b) ==> data[i] == 0
  }

  lemma {:induction false} ZerosIff(data: seq<Byte>, pos: nat, n: nat)
    requires pos + n <= |data|
    ensures Reads(data, pos, Zeros(n)) <==> forall i :: pos <= i < pos + n ==> data[i] == 0
  {
    if n > 0 {
      ZerosIff(data, pos, n - 1);
      ReadsIff(data, pos, Zeros(n - 1), [0]);
      assert data[pos + n - 1..pos + n] == [data[pos + n - 1]];
    }
  }

  lemma HeadIff(b: Bone, data: seq<Byte>, pos: nat)
    requires |b.cframe| == 12 && pos + 60 <= |data|
    ensures |BoneHead(b)| == 56
    ensures Reads(data, pos, BoneHead(b)) <==>
              && HasWord(data, pos, if b.parent.Some? then b.parent.value else 0xFFFF_FFFF)
              && (data[pos + 4] != 0 <==> b.isVirtual) && data[pos + 4] <= 1 && data[pos + 5..pos + 8] == [0, 0, 0]
              && HasWords(data, pos + 8, b.cframe)
  {
    var parent := if b.parent.Some? then b.parent.value else NONE;
    var flags: seq<Byte> := [if b.isVirtual then 1 else 0, 0, 0, 0];
    WordIff(data, pos, parent);
    WordsIff(data, pos + 8, b.cframe);
    TwoIff(data, pos, Le(parent) + flags, Words(b.cframe), pos + 8, pos + 56);
    TwoIff(data, pos, Le(parent), flags, pos + 4, pos + 8);
    assert data[pos + 4..pos + 8] == [data[pos + 4], data[pos + 5], data[pos + 6], data[pos + 7]];
    assert data[pos + 5..pos + 8] == [data[pos + 5], data[pos + 6], data[pos + 7]];
  }

  lemma NameIff(name: seq<Byte>, data: seq<Byte>, pos: nat)
    requires pos + 4 + (|name| + 3) / 4 * 4 <= |data|
    ensures |NameBytes(name)| == 4 + (|name| + 3) / 4 * 4
    ensures Reads(data, pos, NameBytes(name)) <==>
              && HasWord(data, pos, |name|) && data[pos + 4..pos + 4 + |name|] == name
              && forall i :: pos + 4 + |name| <= i < pos + 4 + (|name| + 3) / 4 * 4 ==> data[i] == 0
  {
    var p1 := pos + 4 + |name|;
    WordIff(data, pos, |name|);
    ZerosIff(data, p1, Pad(|name|));
    TwoIff(data, pos, Le(|name|) + name, Zeros(Pad(|name|)), p1, p1 + Pad(|name|));
    TwoIff(data, pos, Le(|name|), name, pos + 4, p1);
  }

  lemma BoneBytesLength(b: Bone)
    requires |b.cframe| == 12
    ensures |BoneBytes(b)| == BoneSize(b) && |BoneHead(b)| == 56
  {
    WordsLength(b.cframe);
  }

  lemma BoneIff(b: Bone, data: seq<Byte>, pos: nat)
    requires |b.cframe| == 12
    ensures Reads(data, pos, BoneBytes(b)) <==> HasBone(b, data, pos) && TidyBone(b, data, pos)
  {
    BoneBytesLength(b);
    if pos + BoneSize(b) <= |data| {
      HeadIff(b, data, pos);
      NameIff(b.name, data, pos + 56);
      TwoIff(data, pos, BoneHead(b), NameBytes(b.name), pos + 56, pos + BoneSize(b));
    }
  }

  /** Where the bones end that begin here. */
  function BonesEnd(bones: seq<Bone>, pos: nat): nat {
    if bones == [] then pos else BonesEnd(bones[..|bones| - 1], pos) + BoneSize(bones[|bones| - 1])
  }

  /** Each bone is so where those before it end. */
  predicate EachBone(ok: (Bone, nat) -> bool, bones: seq<Bone>, pos: nat) {
    forall i :: 0 <= i < |bones| ==> ok(bones[i], BonesEnd(bones[..i], pos))
  }

  function Held(data: seq<Byte>): (Bone, nat) -> bool {
    (b: Bone, p: nat) => HasBone(b, data, p)
  }

  function Tidied(data: seq<Byte>): (Bone, nat) -> bool {
    (b: Bone, p: nat) => TidyBone(b, data, p)
  }

  predicate HasBones(bones: seq<Bone>, data: seq<Byte>, pos: nat) {
    pos <= |data| && EachBone(Held(data), bones, pos)
  }

  predicate TidyBones(bones: seq<Bone>, data: seq<Byte>, pos: nat) {
    pos <= |data| && EachBone(Tidied(data), bones, pos)
  }

  lemma EachMore(ok: (Bone, nat) -> bool, bones: seq<Bone>, pos: nat, n: nat)
    requires n + 1 == |bones|
    ensures EachBone(ok, bones, pos) <==> EachBone(ok, bones[..n], pos) && ok(bones[n], BonesEnd(bones[..n], pos))
  {
    forall i | 0 <= i < n ensures bones[..n][i] == bones[i] && bones[..n][..i] == bones[..i] { }
    if EachBone(ok, bones[..n], pos) && ok(bones[n], BonesEnd(bones[..n], pos)) {
      forall i | 0 <= i < |bones| ensures ok(bones[i], BonesEnd(bones[..i], pos)) {
        if i < n { assert ok(bones[..n][i], BonesEnd(bones[..n][..i], pos)); }
      }
    }
  }

  /** The same, one bone after the other. */
  predicate InTurn(ok: (Bone, nat) -> bool, bones: seq<Bone>, pos: nat) {
    bones == [] || (InTurn(ok, bones[..|bones| - 1], pos) && ok(bones[|bones| - 1], BonesEnd(bones[..|bones| - 1], pos)))
  }

  lemma {:induction false} InTurnIff(ok: (Bone, nat) -> bool, bones: seq<Bone>, pos: nat)
    ensures InTurn(ok, bones, pos) <==> EachBone(ok, bones, pos)
  {
    if bones != [] {
      InTurnIff(ok, bones[..|bones| - 1], pos);
      EachMore(ok, bones, pos, |bones| - 1);
    }
  }

  ghost predicate PrintsAs(print1: Bone -> seq<Byte>, ok: (Bone, nat) -> bool, data: seq<Byte>, b: Bone) {
    |print1(b)| == BoneSize(b) && forall p: nat :: Reads(data, p, print1(b)) <==> ok(b, p)
  }

  lemma PrintsOne(print1: Bone -> seq<Byte>, ok: (Bone, nat) -> bool, data: seq<Byte>, b: Bone, p: nat)
    requires PrintsAs(print1, ok, data, b)
    ensures |print1(b)| == BoneSize(b) && (Reads(data, p, print1(b)) <==> ok(b, p))
  {
  }

  lemma {:induction false} EachIff(print1: Bone -> seq<Byte>, ok: (Bone, nat) -> bool, data: seq<Byte>, pos: nat, bones: seq<Bone>)
    requires pos <= |data| && forall i :: 0 <= i < |bones| ==> PrintsAs(print1, ok, data, bones[i])
    ensures Reads(data, pos, Each(print1, bones)) <==> InTurn(ok, bones, pos)
    ensures pos + |Each(print1, bones)| == BonesEnd(bones, pos)
  {
    if bones != [] {
      var n := |bones| - 1;
      var p := BonesEnd(bones[..n], pos);
      EachIff(print1, ok, data, pos, bones[..n]);
      PrintsOne(print1, ok, data, bones[n], p);
      TwoIff(data, pos, Each(print1, bones[..n]), print1(bones[n]), p, p + BoneSize(bones[n]));
    }
  }

  function Neat(data: seq<Byte>): (Bone, nat) -> bool {
    (b: Bone, p: nat) => HasBone(b, data, p) && TidyBone(b, data, p)
  }

  lemma NeatIff(bones: seq<Bone>, data: seq<Byte>, pos: nat)
    ensures EachBone(Neat(data), bones, pos) <==> EachBone(Held(data), bones, pos) && EachBone(Tidied(data), bones, pos)
  {
    if EachBone(Neat(data), bones, pos) {
      forall i | 0 <= i < |bones|
        ensures Held(data)(bones[i], BonesEnd(bones[..i], pos)) && Tidied(data)(bones[i], BonesEnd(bones[..i], pos))
      {
        assert Neat(data)(bones[i], BonesEnd(bones[..i], pos));
      }
    }
    if EachBone(Held(data), bones, pos) && EachBone(Tidied(data), bones, pos) {
      forall i | 0 <= i < |bones| ensures Neat(data)(bones[i], BonesEnd(bones[..i], pos)) {
        assert Held(data)(bones[i], BonesEnd(bones[..i], pos)) && Tidied(data)(bones[i], BonesEnd(bones[..i], pos));
      }
    }
  }

  lemma BoneNeat(b: Bone, data: seq<Byte>)
    requires |b.cframe| == 12
    ensures PrintsAs(BoneBytes, Neat(data), data, b)
  {
    BoneBytesLength(b);
    forall p: nat ensures Reads(data, p, BoneBytes(b)) <==> Neat(data)(b, p) { BoneIff(b, data, p); }
  }

  lemma BonesIff(bones: seq<Bone>, data: seq<Byte>, pos: nat)
    requires pos <= |data| && forall i :: 0 <= i < |bones| ==> |bones[i].cframe| == 12
    ensures Reads(data, pos, Each(BoneBytes, bones)) <==> HasBones(bones, data, pos) && TidyBones(bones, data, pos)
    ensures pos + |Each(BoneBytes, bones)| == BonesEnd(bones, pos)
  {
    forall i | 0 <= i < |bones| ensures PrintsAs(BoneBytes, Neat(data), data, bones[i]) { BoneNeat(bones[i], data); }
    EachIff(BoneBytes, Neat(data), data, pos, bones);
    InTurnIff(Neat(data), bones, pos);
    NeatIff(bones, data, pos);
  }

  // ------------------------------------------------------------------------ the whole blob

  /** The data begins with the mesh, laid out as the format says; what bits and bytes mean
      nothing may be anything. */
  predicate Holds(m: Mesh, data: seq<Byte>) {
    HasHeader(m, data) && HasAttributes(m, data) && HasWords(data, IndicesAt(m), m.indices) && HasBones(m.bones, data, BonesAt(m))
  }

  /** And what means nothing is zero. */
  predicate Tidy(m: Mesh, data: seq<Byte>) {
    TidyHeader(data) && TidyBones(m.bones, data, BonesAt(m))
  }

  lemma TopologyIff(m: Mesh, data: seq<Byte>)
    requires Typed(m) && BonesAt(m) <= |data|
    ensures Reads(data, IndicesAt(m), TopologyBytes(m)) <==>
              && HasWords(data, IndicesAt(m), m.indices)
              && HasBones(m.bones, data, BonesAt(m)) && TidyBones(m.bones, data, BonesAt(m))
    ensures IndicesAt(m) + |TopologyBytes(m)| == BonesEnd(m.bones, BonesAt(m))
  {
    WordsIff(data, IndicesAt(m), m.indices);
    BonesIff(m.bones, data, BonesAt(m));
    TwoIff(data, IndicesAt(m), Words(m.indices), Each(BoneBytes, m.bones), BonesAt(m), BonesEnd(m.bones, BonesAt(m)));
  }

  lemma PartsIff(m: Mesh, data: seq<Byte>)
    requires Typed(m)
    ensures Reads(data, 0, Encode(m)) <==>
              Reads(data, 0, HeaderBytes(m)) && Reads(data, 24, AttributeBytes(RowBytes, m)) && Reads(data, IndicesAt(m), TopologyBytes(m))
    ensures |Encode(m)| == IndicesAt(m) + |TopologyBytes(m)|
  {
    AttributesIff(m, data);
    TwoIff(data, 0, HeaderBytes(m) + AttributeBytes(RowBytes, m), TopologyBytes(m), IndicesAt(m), IndicesAt(m) + |TopologyBytes(m)|);
    TwoIff(data, 0, HeaderBytes(m), AttributeBytes(RowBytes, m), 24, IndicesAt(m));
  }

  lemma ReadsEncode(m: Mesh, data: seq<Byte>)
    requires Typed(m)
    ensures Reads(data, 0, Encode(m)) <==> Holds(m, data) && Tidy(m, data)
  {
    PartsIff(m, data);
    HeaderIff(m, data);
    AttributesIff(m, data);
    if BonesAt(m) <= |data| {
      TopologyIff(m, data);
    } else {
      WordsIff(data, IndicesAt(m), m.indices);
      if Reads(data, IndicesAt(m), TopologyBytes(m)) { ReadsSplit(data, IndicesAt(m), Words(m.indices), Each(BoneBytes, m.bones)); }
    }
  }

  lemma EncodeEnds(m: Mesh)
    requires Typed(m)
    ensures |Encode(m)| == BonesEnd(m.bones, BonesAt(m))
  {
    var data := Encode(m);
    assert Reads(data, 0, data);
    ReadsEncode(m, data);
    PartsIff(m, data);
    TopologyIff(m, data);
  }

  /** The blob of a mesh is the bytes that hold it, with zeros where nothing is meant, and no
      more: byte for byte, in both directions. */
  lemma EncodeIff(m: Mesh, blob: seq<Byte>)
    requires Typed(m)
    ensures blob == Encode(m) <==>
              Holds(m, blob) && Tidy(m, blob) && |blob| == BonesEnd(m.bones, BonesAt(m))
  {
    ReadsEncode(m, blob);
    EncodeEnds(m);
    assert blob[0..|blob|] == blob;
  }

  method EncodeBlob(m: Mesh) returns (out: seq<Byte>)
    ensures out == Encode(m)
    ensures Typed(m) ==> Holds(m, out) && Tidy(m, out) && |out| == BonesEnd(m.bones, BonesAt(m))
  {
    var flags;
    out, flags := PutHeader(m);
    out := PutAttributes(out, HasFlag(flags, F_SKIN), m);
    AttributeBytesAligned(m);
    AlignedConcat(HeaderBytes(m), AttributeBytes(RowBytes, m));
    out := PutTopology(out, m);
    if Typed(m) { EncodeIff(m, out); }
  }

  // ------------------------------------------------------------------------- the parser

  lemma LowByte(b: Byte, rest: nat)
    ensures (b + 256 * rest) % 256 == b && (b + 256 * rest) / 256 == rest
  {
  }

  lemma DivTwice(w: nat)
    ensures w / 65536 == w / 256 / 256 && w / 16777216 == w / 256 / 256 / 256
  {
  }

  lemma LeFromLe(b: seq<Byte>)
    requires |b| == 4
    ensures Le(FromLe(b)) == b
  {
    var w, x: nat, y: nat := FromLe(b), b[1] as int + 256 * b[2] as int + 65536 * b[3] as int, b[2] as int + 256 * b[3] as int;
    LowByte(b[0], x);
    LowByte(b[1], y);
    LowByte(b[2], b[3]);
    DivTwice(w);
    assert w / 256 == x && x / 256 == y && y / 256 == b[3];
  }

  lemma WordAtIff(data: seq<Byte>, pos: nat, w: Word, q: nat)
    ensures WordAt(data, pos) == At(w, q) <==> HasWord(data, pos, w) && q == pos + 4
  {
    WordIff(data, pos, w);
    if HasWord(data, pos, w) { WordReads(data, pos, w); }
    if pos + 4 <= |data| { LeFromLe(data[pos..pos + 4]); }
  }

  lemma {:induction false} WordsAtIff(data: seq<Byte>, pos: nat, ws: seq<Word>, q: nat)
    requires pos <= |data|
    ensures WordsAt(data, pos, |ws|) == At(ws, q) <==> HasWords(data, pos, ws) && q == pos + 4 * |ws|
  {
    WordsIff(data, pos, ws);
    if HasWords(data, pos, ws) {
      WordsRead(data, pos, ws);
    } else if WordsAt(data, pos, |ws|) == At(ws, q) {
      WordsThere(data, pos, ws, q);
    }
  }

  lemma {:induction false} WordsThere(data: seq<Byte>, pos: nat, ws: seq<Word>, q: nat)
    requires pos <= |data| && WordsAt(data, pos, |ws|) == At(ws, q)
    ensures HasWords(data, pos, ws) && q == pos + 4 * |ws|
    decreases |ws|
  {
    if ws != [] {
      var n := |ws| - 1;
      var before := WordsAt(data, pos, n);
      assert before.At? && ws == before.value + [ws[n]] && WordAt(data, before.pos) == At(ws[n], q);
      WordsThere(data, pos, before.value, before.pos);
      WordAtIff(data, before.pos, ws[n], q);
    }
  }

  lemma {:induction false} RowsThere(data: seq<Byte>, pos: nat, rows: Rows, width: nat, q: nat)
    requires pos <= |data| && RowsAt(data, pos, |rows|, width) == At(rows, q)
    ensures Wide(rows, width) && HasRows(data, pos, rows, width) && q == pos + 4 * (width * |rows|)
    decreases |rows|
  {
    if rows != [] {
      var n := |rows| - 1;
      var before := RowsAt(data, pos, n, width);
      assert before.At? && rows == before.value + [rows[n]] && WordsAt(data, before.pos, width) == At(rows[n], q);
      RowsThere(data, pos, before.value, width, before.pos);
      WordsThere(data, before.pos, rows[n], q);
      OneMoreRow(width, n);
      RowsJoin(data, pos, rows, width, n);
    }
  }

  lemma RowsAtIff(data: seq<Byte>, pos: nat, rows: Rows, width: nat, q: nat)
    requires pos <= |data|
    ensures RowsAt(data, pos, |rows|, width) == At(rows, q) <==>
              Wide(rows, width) && HasRows(data, pos, rows, width) && q == pos + 4 * (width * |rows|)
  {
    if RowsAt(data, pos, |rows|, width) == At(rows, q) {
      RowsThere(data, pos, rows, width, q);
    }
    if Wide(rows, width) {
      RowsIff(data, pos, rows, width);
      if HasRows(data, pos, rows, width) { RowsRead(data, pos, rows, width); }
    }
  }

  /** One attribute of the vertices, present or not. */
  predicate HasAttribute(data: seq<Byte>, pos: nat, rows: Option<Rows>, present: bool, count: nat, width: nat) {
    rows.Some? == present && OptShaped(rows, count, width) && HasOptRows(data, pos, rows, width)
  }

  lemma OptRowsAtIff(data: seq<Byte>, pos: nat, rows: Option<Rows>, present: bool, count: nat, width: nat, q: nat)
    requires pos <= |data|
    ensures OptRowsAt(RowsOf(data), pos, present, count, width) == At(rows, q) <==>
              HasAttribute(data, pos, rows, present, count, width) && q == pos + Room(rows, width)
  {
    if present {
      var r := RowsAt(data, pos, count, width);
      if r.At? {
        RowsAreShaped(data, pos, count, width);
        RowsAtIff(data, pos, r.value, width, r.pos);
      }
      if rows.Some? && |rows.value| == count { RowsAtIff(data, pos, rows.value, width, q); }
    }
  }

  /** Where each attribute of a parse ended. */
  lemma AttributesChain(rows: RowReader, pos: nat, n: nat, has: Present, a: Attributes, q: nat)
    returns (p1: nat, p2: nat, p3: nat, p4: nat, p5: nat)
    requires AttributesAt(rows, pos, n, has) == At(a, q)
    ensures rows(pos, n, 3) == At(a.positions, p1) && OptRowsAt(rows, p1, has.normals, n, 3) == At(a.normals, p2)
    ensures OptRowsAt(rows, p2, has.uvs, n, 2) == At(a.uvs, p3) && OptRowsAt(rows, p3, has.colors, n, 4) == At(a.colors, p4)
    ensures OptRowsAt(rows, p4, has.skin, n, 4) == At(a.joints, p5) && OptRowsAt(rows, p5, has.skin, n, 4) == At(a.weights, q)
  {
    p1 := rows(pos, n, 3).pos;
    p2 := OptRowsAt(rows, p1, has.normals, n, 3).pos;
    p3 := OptRowsAt(rows, p2, has.uvs, n, 2).pos;
    p4 := OptRowsAt(rows, p3, has.colors, n, 4).pos;
    p5 := OptRowsAt(rows, p4, has.skin, n, 4).pos;
  }

  /** The reader gives rows only where they stand. */
  ghost predicate Stands(rows: RowReader, data: seq<Byte>) {
    forall p: nat, count: nat, width: nat, rs: Rows, q: nat :: p <= |data| && rows(p, count, width) == At(rs, q) ==> StandsAt(data, p, count, width, rs, q)
  }

  predicate StandsAt(data: seq<Byte>, pos: nat, count: nat, width: nat, rows: Rows, q: nat) {
    |rows| == count && HasRows(data, pos, rows, width) && q == pos + 4 * (width * count)
  }

  lemma RowsOfStands(data: seq<Byte>)
    ensures Stands(RowsOf(data), data)
  {
    forall p: nat, count: nat, width: nat, rs: Rows, q: nat | p <= |data| && RowsOf(data)(p, count, width) == At(rs, q)
      ensures StandsAt(data, p, count, width, rs, q)
    {
      RowsAreShaped(data, p, count, width);
      RowsThere(data, p, rs, width, q);
    }
  }

  lemma OptStands(rows: RowReader, data: seq<Byte>, pos: nat, present: bool, count: nat, width: nat, value: Option<Rows>, q: nat)
    requires Stands(rows, data) && pos <= |data| && OptRowsAt(rows, pos, present, count, width) == At(value, q)
    ensures value.Some? == present && HasOptRows(data, pos, value, width) && q == pos + Room(value, width) && q <= |data|
  {
    if present { assert StandsAt(data, pos, count, width, value.value, q); }
  }

  lemma VertexThere(rows: RowReader, data: seq<Byte>, m: Mesh, has: Present, p1: nat, p2: nat, p3: nat, p4: nat)
    requires Stands(rows, data) && 24 <= |data| && rows(24, |m.positions|, 3) == At(m.positions, p1)
    requires OptRowsAt(rows, p1, has.normals, |m.positions|, 3) == At(m.normals, p2)
    requires OptRowsAt(rows, p2, has.uvs, |m.positions|, 2) == At(m.uvs, p3)
    requires OptRowsAt(rows, p3, has.colors, |m.positions|, 4) == At(m.colors, p4)
    ensures has.normals == m.normals.Some? && has.uvs == m.uvs.Some? && has.colors == m.colors.Some?
    ensures HasOptRows(data, 24, Some(m.positions), 3) && HasOptRows(data, NormalsAt(m), m.normals, 3)
    ensures HasOptRows(data, UvsAt(m), m.uvs, 2) && HasOptRows(data, ColorsAt(m), m.colors, 4)
    ensures p4 == JointsAt(m) <= |data|
  {
    assert StandsAt(data, 24, |m.positions|, 3, m.positions, p1);
    OptStands(rows, data, p1, has.normals, |m.positions|, 3, m.normals, p2);
    OptStands(rows, data, p2, has.uvs, |m.positions|, 2, m.uvs, p3);
    OptStands(rows, data, p3, has.colors, |m.positions|, 4, m.colors, p4);
  }

  lemma SkinThere(rows: RowReader, data: seq<Byte>, m: Mesh, skin: bool, p5: nat, q: nat)
    requires Stands(rows, data) && JointsAt(m) <= |data|
    requires OptRowsAt(rows, JointsAt(m), skin, |m.positions|, 4) == At(m.joints, p5)
    requires OptRowsAt(rows, p5, skin, |m.positions|, 4) == At(m.weights, q)
    ensures skin == Skinned(m) && q == IndicesAt(m)
    ensures HasOptRows(data, JointsAt(m), SkinOf(m, m.joints), 4) && HasOptRows(data, WeightsAt(m), SkinOf(m, m.weights), 4)
  {
    OptStands(rows, data, JointsAt(m), skin, |m.positions|, 4, m.joints, p5);
    OptStands(rows, data, p5, skin, |m.positions|, 4, m.weights, q);
  }

  lemma AttributesThere(rows: RowReader, data: seq<Byte>, m: Mesh, has: Present, q: nat)
    requires Stands(rows, data) && 24 <= |data| && AttributesAt(rows, 24, |m.positions|, has) == At(AttributesOf(m), q)
    ensures has == PresentOf(m) && HasAttributes(m, data) && q == IndicesAt(m)
  {
    var p1, p2, p3, p4, p5 := AttributesChain(rows, 24, |m.positions|, has, AttributesOf(m), q);
    VertexThere(rows, data, m, has, p1, p2, p3, p4);
    SkinThere(rows, data, m, has.skin, p5, q);
  }

  lemma AttributesParse(data: seq<Byte>, m: Mesh)
    requires 24 <= |data| && AttributesShaped(m) && HasAttributes(m, data)
    ensures AttributesAt(RowsOf(data), 24, |m.positions|, PresentOf(m)) == At(AttributesOf(m), IndicesAt(m))
  {
    var n, has := |m.positions|, PresentOf(m);
    RowsAtIff(data, 24, m.positions, 3, NormalsAt(m));
    OptRowsAtIff(data, NormalsAt(m), m.normals, has.normals, n, 3, UvsAt(m));
    OptRowsAtIff(data, UvsAt(m), m.uvs, has.uvs, n, 2, ColorsAt(m));
    OptRowsAtIff(data, ColorsAt(m), m.colors, has.colors, n, 4, JointsAt(m));
    OptRowsAtIff(data, JointsAt(m), m.joints, has.skin, n, 4, WeightsAt(m));
    OptRowsAtIff(data, WeightsAt(m), m.weights, has.skin, n, 4, IndicesAt(m));
  }

  lemma {:induction false} IndicesThere(data: seq<Byte>, pos: nat, ws: seq<Word>, vertices: nat, q: nat)
    requires pos <= |data| && Many(IndexItem(data, vertices), pos, |ws|) == At(ws, q)
    ensures HasWords(data, pos, ws) && q == pos + 4 * |ws|
    decreases |ws|
  {
    if ws != [] {
      var n := |ws| - 1;
      var before := Many(IndexItem(data, vertices), pos, n);
      assert before.At? && ws == before.value + [ws[n]] && IndexAt(data, before.pos, vertices) == At(ws[n], q);
      IndicesThere(data, pos, before.value, vertices, before.pos);
      WordAtIff(data, before.pos, ws[n], q);
    }
  }

  lemma IndicesParse(data: seq<Byte>, pos: nat, ws: seq<Word>, vertices: nat)
    requires HasWords(data, pos, ws) && forall i :: 0 <= i < |ws| ==> ws[i] < vertices
    ensures Many(IndexItem(data, vertices), pos, |ws|) == At(ws, pos + 4 * |ws|)
  {
    WordsIff(data, pos, ws);
    IndicesBack(data, ws, vertices);
    ManyReads(data, pos, IndexItem(data, vertices), WordBytes, ws);
  }

  lemma BoneParses(data: seq<Byte>, pos: nat, index: nat, b: Bone)
    requires index <= NONE && BoneOk(b, index) && HasBone(b, data, pos)
    ensures BoneAt(data, pos, index) == At(b, pos + BoneSize(b))
  {
    WordAtIff(data, pos, if b.parent.Some? then b.parent.value else NONE, pos + 4);
    WordsAtIff(data, pos + 8, b.cframe, pos + 56);
    WordAtIff(data, pos + 56, |b.name|, pos + 60);
  }

  /** What a bone's parse read, and where. */
  lemma BoneChain(data: seq<Byte>, pos: nat, index: nat, b: Bone, q: nat) returns (parent: Word, p3: nat, len: Word)
    requires BoneAt(data, pos, index) == At(b, q)
    ensures WordAt(data, pos) == At(parent, pos + 4) && b.parent == (if parent == NONE then None else Some(parent))
    ensures pos + 8 <= |data| && (data[pos + 4] != 0 <==> b.isVirtual)
    ensures WordsAt(data, pos + 8, 12) == At(b.cframe, p3) && WordAt(data, p3) == At(len, p3 + 4)
    ensures p3 + 4 + len + Pad(len) <= |data| && b.name == data[p3 + 4..p3 + 4 + len] && q == p3 + 4 + len + Pad(len)
  {
    parent := WordAt(data, pos).value;
    p3 := WordsAt(data, pos + 8, 12).pos;
    len := WordAt(data, p3).value;
  }

  lemma BoneThere(data: seq<Byte>, pos: nat, index: nat, b: Bone, q: nat)
    requires BoneAt(data, pos, index) == At(b, q)
    ensures HasBone(b, data, pos) && q == pos + BoneSize(b)
  {
    var parent, p3, len := BoneChain(data, pos, index, b, q);
    WordAtIff(data, pos, parent, pos + 4);
    WordsThere(data, pos + 8, b.cframe, p3);
    WordAtIff(data, p3, len, p3 + 4);
  }

  ghost predicate Yields(item: (nat, nat) -> Parsed<Bone>, ok: (Bone, nat) -> bool) {
    forall i: nat, p: nat, b: Bone, q: nat :: item(i, p) == At(b, q) ==> ok(b, p) && q == p + BoneSize(b)
  }

  lemma {:induction false} EachThere(item: (nat, nat) -> Parsed<Bone>, ok: (Bone, nat) -> bool, pos: nat, bones: seq<Bone>, q: nat)
    requires Yields(item, ok) && Many(item, pos, |bones|) == At(bones, q)
    ensures InTurn(ok, bones, pos) && q == BonesEnd(bones, pos)
    decreases |bones|
  {
    if bones != [] {
      var n := |bones| - 1;
      var before := Many(item, pos, n);
      assert before.At? && bones == before.value + [bones[n]] && item(n, before.pos) == At(bones[n], q);
      assert before.value == bones[..n];
      EachThere(item, ok, pos, before.value, before.pos);
    }
  }

  /** Bone i, where it is so, is parsed as it is. */
  ghost predicate Takes(item: (nat, nat) -> Parsed<Bone>, ok: (Bone, nat) -> bool, i: nat, b: Bone) {
    forall p: nat :: ok(b, p) ==> item(i, p) == At(b, p + BoneSize(b))
  }

  ghost predicate AllTake(item: (nat, nat) -> Parsed<Bone>, ok: (Bone, nat) -> bool, bones: seq<Bone>) {
    forall i: nat :: i < |bones| ==> Takes(item, ok, i, bones[i])
  }

  lemma AllTakeInit(item: (nat, nat) -> Parsed<Bone>, ok: (Bone, nat) -> bool, bones: seq<Bone>, n: nat)
    requires AllTake(item, ok, bones) && n < |bones|
    ensures AllTake(item, ok, bones[..n]) && Takes(item, ok, n, bones[n])
  {
    forall i: nat | i < n ensures Takes(item, ok, i, bones[..n][i]) { assert Takes(item, ok, i, bones[i]); }
  }

  lemma {:induction false} EachParses(item: (nat, nat) -> Parsed<Bone>, ok: (Bone, nat) -> bool, pos: nat, bones: seq<Bone>)
    requires AllTake(item, ok, bones) && InTurn(ok, bones, pos)
    ensures Many(item, pos, |bones|) == At(bones, BonesEnd(bones, pos))
  {
    if bones != [] {
      var n := |bones| - 1;
      AllTakeInit(item, ok, bones, n);
      EachParses(item, ok, pos, bones[..n]);
      TakesOne(item, ok, n, bones[n], BonesEnd(bones[..n], pos));
      assert bones == bones[..n] + [bones[n]];
    }
  }

  lemma TakesOne(item: (nat, nat) -> Parsed<Bone>, ok: (Bone, nat) -> bool, i: nat, b: Bone, p: nat)
    requires Takes(item, ok, i, b) && ok(b, p)
    ensures item(i, p) == At(b, p + BoneSize(b))
  {
  }

  lemma BonesYield(data: seq<Byte>)
    ensures Yields(BoneItem(data), Held(data))
  {
    forall i: nat, p: nat, b: Bone, r: nat | BoneItem(data)(i, p) == At(b, r) ensures Held(data)(b, p) && r == p + BoneSize(b) {
      BoneThere(data, p, i, b, r);
    }
  }

  lemma BonesThere(data: seq<Byte>, pos: nat, bones: seq<Bone>, q: nat)
    requires pos <= |data| && Many(BoneItem(data), pos, |bones|) == At(bones, q)
    ensures HasBones(bones, data, pos) && q == BonesEnd(bones, pos)
  {
    BonesYield(data);
    EachThere(BoneItem(data), Held(data), pos, bones, q);
    InTurnIff(Held(data), bones, pos);
  }

  lemma BoneTakes(data: seq<Byte>, i: nat, b: Bone)
    requires i <= NONE && BoneOk(b, i)
    ensures Takes(BoneItem(data), Held(data), i, b)
  {
    forall p: nat | Held(data)(b, p) ensures BoneItem(data)(i, p) == At(b, p + BoneSize(b)) { BoneParses(data, p, i, b); }
  }

  lemma BonesParse(data: seq<Byte>, pos: nat, bones: seq<Bone>)
    requires HasBones(bones, data, pos) && |bones| < WORDS && forall i :: 0 <= i < |bones| ==> BoneOk(bones[i], i)
    ensures Many(BoneItem(data), pos, |bones|) == At(bones, BonesEnd(bones, pos))
  {
    forall i: nat | i < |bones| ensures Takes(BoneItem(data), Held(data), i, bones[i]) { BoneTakes(data, i, bones[i]); }
    assert AllTake(BoneItem(data), Held(data), bones);
    InTurnIff(Held(data), bones, pos);
    EachParses(BoneItem(data), Held(data), pos, bones);
  }

  lemma HalfOfSum(b: nat, rest: nat)
    ensures (b + 2 * rest) / 2 == b / 2 + rest && (b + 2 * rest) % 2 == b % 2
  {
  }

  lemma BitsOfSum(b: nat, rest: nat)
    ensures var w := b + 256 * rest;
            w % 2 == b % 2 && w / 2 % 2 == b / 2 % 2 && w / 2 / 2 % 2 == b / 2 / 2 % 2 && w / 2 / 2 / 2 % 2 == b / 2 / 2 / 2 % 2
  {
    HalfOfSum(b, 128 * rest);
    HalfOfSum(b / 2, 64 * rest);
    HalfOfSum(b / 2 / 2, 32 * rest);
    HalfOfSum(b / 2 / 2 / 2, 16 * rest);
  }

  lemma HalfTwice(w: nat)
    ensures w / 4 == w / 2 / 2 && w / 8 == w / 2 / 2 / 2
  {
  }

  lemma BytesOfWord(data: seq<Byte>, pos: nat, w: Word)
    requires WordAt(data, pos) == At(w, pos + 4)
    ensures w % 2 == data[pos] % 2 && w / 2 % 2 == data[pos] / 2 % 2 && w / 4 % 2 == data[pos] / 4 % 2 && w / 8 % 2 == data[pos] / 8 % 2
  {
    var rest: nat := data[pos + 1] as int + 256 * data[pos + 2] as int + 65536 * data[pos + 3] as int;
    assert w == data[pos] as int + 256 * rest;
    BitsOfSum(data[pos], rest);
    HalfTwice(w);
    HalfTwice(data[pos]);
  }

  lemma HeaderIs(data: seq<Byte>, h: Header, m: Mesh)
    requires |m.positions| < WORDS && |m.indices| < WORDS && |m.bones| < WORDS && |m.indices| % 3 == 0
    ensures HeaderAt(data) == At(h, 24) && h.vertices == |m.positions| && h.indices == |m.indices| && h.bones == |m.bones|
            && PresentIn(h.flags) == PresentOf(m)
            <==> HasHeader(m, data) && WordAt(data, 16) == At(h.flags, 20)
                 && h.vertices == |m.positions| && h.indices == |m.indices| && h.bones == |m.bones|
  {
    WordAtIff(data, 0, MAGIC, 4);
    WordAtIff(data, 4, VERSION, 8);
    WordAtIff(data, 8, |m.positions|, 12);
    WordAtIff(data, 12, |m.indices|, 16);
    WordAtIff(data, 20, |m.bones|, 24);
    if 24 <= |data| {
      MarksIff(data);
      BytesOfWord(data, 16, WordAt(data, 16).value);
    }
  }

  // ---------------------------------------------------------------- what is accepted, and how

  lemma HeaderEnds(data: seq<Byte>)
    requires HeaderAt(data).At?
    ensures HeaderAt(data).pos == 24 <= |data|
  {
  }

  lemma BodyChain(rows: RowReader, index: (nat, nat) -> Parsed<Word>, bone: (nat, nat) -> Parsed<Bone>, pos: nat,
    vertices: nat, has: Present, indexCount: nat, boneCount: nat, m: Mesh, q: nat) returns (p1: nat, p2: nat)
    requires BodyOf(rows, index, bone, pos, vertices, has, indexCount, boneCount) == At(m, q)
    ensures AttributesAt(rows, pos, vertices, has) == At(AttributesOf(m), p1)
    ensures Many(index, p1, indexCount) == At(m.indices, p2) && Many(bone, p2, boneCount) == At(m.bones, q)
    ensures |m.indices| == indexCount && |m.bones| == boneCount
  {
    p1 := AttributesAt(rows, pos, vertices, has).pos;
    p2 := Many(index, p1, indexCount).pos;
  }

  lemma PositionsCounted(data: seq<Byte>, m: Mesh, vertices: nat, has: Present, p1: nat)
    requires AttributesAt(RowsOf(data), 24, vertices, has) == At(AttributesOf(m), p1)
    ensures |m.positions| == vertices
  {
    var a1, a2, a3, a4, a5 := AttributesChain(RowsOf(data), 24, vertices, has, AttributesOf(m), p1);
  }

  lemma AttributesRoomy(m: Mesh, data: seq<Byte>)
    requires HasAttributes(m, data)
    ensures IndicesAt(m) <= |data|
  {
  }

  lemma AttributesHold(data: seq<Byte>, m: Mesh, vertices: nat, has: Present, p1: nat)
    requires 24 <= |data| && AttributesAt(RowsOf(data), 24, vertices, has) == At(AttributesOf(m), p1)
    ensures |m.positions| == vertices && has == PresentOf(m) && HasAttributes(m, data) && p1 == IndicesAt(m) <= |data|
  {
    PositionsCounted(data, m, vertices, has, p1);
    RowsOfStands(data);
    AttributesThere(RowsOf(data), data, m, has, p1);
    AttributesRoomy(m, data);
  }

  lemma TopologyHolds(data: seq<Byte>, indices: seq<Word>, bones: seq<Bone>, vertices: nat, p1: nat, p2: nat, q: nat)
    requires p1 <= |data| && Many(IndexItem(data, vertices), p1, |indices|) == At(indices, p2)
    requires Many(BoneItem(data), p2, |bones|) == At(bones, q)
    ensures HasWords(data, p1, indices) && HasBones(bones, data, p2) && p2 == p1 + 4 * |indices|
  {
    IndicesThere(data, p1, indices, vertices, p2);
    assert p2 <= |data|;
    BonesThere(data, p2, bones, q);
  }

  lemma BodyHolds(data: seq<Byte>, h: Header, m: Mesh, q: nat)
    requires 24 <= |data| && BodyAt(data, 24, h) == At(m, q)
    ensures h.vertices == |m.positions| && h.indices == |m.indices| && h.bones == |m.bones| && PresentIn(h.flags) == PresentOf(m)
    ensures HasAttributes(m, data) && HasWords(data, IndicesAt(m), m.indices) && HasBones(m.bones, data, BonesAt(m))
  {
    var p1, p2 := BodyChain(RowsOf(data), IndexItem(data, h.vertices), BoneItem(data), 24, h.vertices, PresentIn(h.flags), h.indices, h.bones, m, q);
    AttributesHold(data, m, h.vertices, PresentIn(h.flags), p1);
    TopologyHolds(data, m.indices, m.bones, h.vertices, p1, p2, q);
    assert p2 == BonesAt(m);
  }

  lemma ParsedHolds(data: seq<Byte>, m: Mesh)
    requires Decode(data) == Ok(m)
    ensures WellFormed(m) && Holds(m, data)
  {
    DecodeIsWellFormed(data);
    HeaderEnds(data);
    var h := HeaderAt(data).value;
    BodyHolds(data, h, m, BodyAt(data, 24, h).pos);
    HeaderIs(data, h, m);
  }

  lemma HoldsBody(data: seq<Byte>, m: Mesh)
    requires WellFormed(m) && HasAttributes(m, data) && 24 <= |data|
    requires HasWords(data, IndicesAt(m), m.indices) && HasBones(m.bones, data, BonesAt(m))
    ensures BodyOf(RowsOf(data), IndexItem(data, |m.positions|), BoneItem(data), 24, |m.positions|, PresentOf(m), |m.indices|, |m.bones|)
            == At(m, BonesEnd(m.bones, BonesAt(m)))
  {
    AttributesParse(data, m);
    IndicesParse(data, IndicesAt(m), m.indices, |m.positions|);
    BonesParse(data, BonesAt(m), m.bones);
    BodyCompose(RowsOf(data), IndexItem(data, |m.positions|), BoneItem(data), 24, m, IndicesAt(m), BonesAt(m), BonesEnd(m.bones, BonesAt(m)));
  }

  lemma HoldsParses(data: seq<Byte>, m: Mesh)
    requires WellFormed(m) && Holds(m, data)
    ensures Decode(data) == Ok(m)
  {
    var h := Header(|m.positions|, |m.indices|, WordAt(data, 16).value, |m.bones|);
    HeaderIs(data, h, m);
    HoldsBody(data, m);
  }

  /** The parser accepts exactly the data that begins with a well-formed mesh laid out as the
      format says, and gives that mesh, whatever the bits and bytes are that mean nothing. */
  lemma DecodeIff(data: seq<Byte>, m: Mesh)
    ensures Decode(data) == Ok(m) <==> WellFormed(m) && Holds(m, data)
  {
    if Decode(data) == Ok(m) { ParsedHolds(data, m); }
    if WellFormed(m) && Holds(m, data) { HoldsParses(data, m); }
  }

  // ----------------------------------------------------------------------- what is refused

  /** The word in the four bytes at a position, low byte first. */
  function U32(data: seq<Byte>, pos: nat): (w: Word)
    requires pos + 4 <= |data|
  {
    data[pos] as int + 256 * data[pos + 1] as int + 65536 * data[pos + 2] as int + 16777216 * data[pos + 3] as int
  }

  lemma WordIs(data: seq<Byte>, pos: nat)
    ensures WordAt(data, pos) == if pos + 4 <= |data| then At(U32(data, pos), pos + 4) else Bad(Truncated)
  {
  }

  lemma {:induction false} WordsRoom(data: seq<Byte>, pos: nat, count: nat)
    requires pos <= |data|
    ensures var r := WordsAt(data, pos, count);
            if pos + 4 * count <= |data| then r.At? && r.pos == pos + 4 * count else r == Bad(Truncated)
  {
    if count > 0 {
      WordsRoom(data, pos, count - 1);
      if pos + 4 * (count - 1) <= |data| { WordIs(data, pos + 4 * (count - 1)); }
    }
  }

  lemma {:induction false} RowsRoom(data: seq<Byte>, pos: nat, count: nat, width: nat)
    requires pos <= |data|
    ensures var r := RowsAt(data, pos, count, width);
            if pos + 4 * (width * count) <= |data| then r.At? && r.pos == pos + 4 * (width * count) else r == Bad(Truncated)
  {
    if count > 0 {
      RowsRoom(data, pos, count - 1, width);
      OneMoreRow(width, count - 1);
      if pos + 4 * (width * (count - 1)) <= |data| { WordsRoom(data, pos + 4 * (width * (count - 1)), width); }
    }
  }

  /** Where the first item stands that stops a parse. */
  lemma {:induction false} ManyFails<T(!new)>(item: (nat, nat) -> Parsed<T>, pos: nat, count: nat) returns (i: nat, ts: seq<T>, p: nat)
    requires Many(item, pos, count).Bad?
    ensures i < count && |ts| == i && Many(item, pos, i) == At(ts, p) && item(i, p) == Bad(Many(item, pos, count).error)
  {
    assert count > 0;
    var before := Many(item, pos, count - 1);
    if before.Bad? {
      i, ts, p := ManyFails(item, pos, count - 1);
    } else {
      i, ts, p := count - 1, before.value, before.pos;
    }
  }

  /** Why a bone is refused: no room for it; a name that is no UTF-8; no room for what fills
      its name up; a parent that does not come before it. */
  ghost predicate BoneRefused(data: seq<Byte>, pos: nat, index: nat, e: Error) {
    if pos + 60 > |data| then e == Truncated else
      var len := U32(data, pos + 56);
      if pos + 60 + len > |data| then e == Truncated
      else if !Valid(data[pos + 60..pos + 60 + len]) then e == BadBoneName
      else if pos + 60 + (len + 3) / 4 * 4 > |data| then e == Truncated
      else index <= U32(data, pos) < 0xFFFF_FFFF && e == ParentAfterChild
  }

  lemma BoneFails(data: seq<Byte>, pos: nat, index: nat)
    requires BoneAt(data, pos, index).Bad?
    ensures BoneRefused(data, pos, index, BoneAt(data, pos, index).error)
  {
    WordIs(data, pos);
    if pos + 8 <= |data| {
      WordsRoom(data, pos + 8, 12);
      WordIs(data, pos + 56);
    }
  }

  /** Why an index is refused. */
  ghost predicate IndexRefused(data: seq<Byte>, pos: nat, vertices: nat, e: Error) {
    if pos + 4 > |data| then e == Truncated else U32(data, pos) >= vertices && e == IndexOutOfRange
  }

  lemma IndexFails(data: seq<Byte>, pos: nat, vertices: nat)
    requires IndexAt(data, pos, vertices).Bad?
    ensures IndexRefused(data, pos, vertices, IndexAt(data, pos, vertices).error)
  {
    WordIs(data, pos);
  }

  predicate Bit(data: seq<Byte>, n: nat)
    requires 24 <= |data| && 0 < n
  {
    data[16] as int / n % 2 == 1
  }

  /** Where the attributes that the flags announce end, and where the joints begin. */
  function JointsFrom(data: seq<Byte>): nat
    requires 24 <= |data|
  {
    var v := U32(data, 8);
    24 + 12 * v + (if Bit(data, 1) then 12 * v else 0) + (if Bit(data, 2) then 8 * v else 0) + (if Bit(data, 4) then 16 * v else 0)
  }

  function AttributesEnd(data: seq<Byte>): nat
    requires 24 <= |data|
  {
    JointsFrom(data) + if Bit(data, 8) then 32 * U32(data, 8) else 0
  }

  /** Rows are read exactly if there is room. */
  ghost predicate NeedsRoom(rows: RowReader, data: seq<Byte>) {
    forall p: nat, count: nat, width: nat :: p <= |data| ==> RoomAt(rows(p, count, width), p + 4 * (width * count), |data|)
  }

  predicate RoomAt<T>(r: Parsed<T>, end: nat, size: nat) {
    if end <= size then r.At? && r.pos == end else r.Bad? && r.error == Truncated
  }

  lemma RowsNeedRoom(data: seq<Byte>)
    ensures NeedsRoom(RowsOf(data), data)
  {
    forall p: nat, count: nat, width: nat | p <= |data| ensures RoomAt(RowsOf(data)(p, count, width), p + 4 * (width * count), |data|) {
      RowsRoom(data, p, count, width);
    }
  }

  lemma OptRoom(rows: RowReader, data: seq<Byte>, pos: nat, present: bool, count: nat, width: nat, end: nat)
    requires NeedsRoom(rows, data) && pos <= |data| && end == pos + if present then 4 * (width * count) else 0
    ensures RoomAt(OptRowsAt(rows, pos, present, count, width), end, |data|)
  {
    if present { assert RoomAt(rows(pos, count, width), pos + 4 * (width * count), |data|); }
  }

  lemma AttributesRoom(rows: RowReader, data: seq<Byte>, v: nat, has: Present, p5: nat, end: nat)
    requires NeedsRoom(rows, data) && 24 <= |data|
    requires p5 == 24 + 12 * v + (if has.normals then 12 * v else 0) + (if has.uvs then 8 * v else 0) + (if has.colors then 16 * v else 0)
    requires end == p5 + if has.skin then 32 * v else 0
    ensures RoomAt(AttributesAt(rows, 24, v, has), end, |data|)
  {
    var p2 := 24 + 12 * v;
    var p3 := p2 + if has.normals then 12 * v else 0;
    var p4 := p3 + if has.uvs then 8 * v else 0;
    var p6 := p5 + if has.skin then 16 * v else 0;
    assert RoomAt(rows(24, v, 3), p2, |data|);
    if p2 > |data| { return; }
    OptRoom(rows, data, p2, has.normals, v, 3, p3);
    if p3 > |data| { return; }
    OptRoom(rows, data, p3, has.uvs, v, 2, p4);
    if p4 > |data| { return; }
    OptRoom(rows, data, p4, has.colors, v, 4, p5);
    if p5 > |data| { return; }
    OptRoom(rows, data, p5, has.skin, v, 4, p6);
    if p6 > |data| { return; }
    OptRoom(rows, data, p6, has.skin, v, 4, end);
  }

  ghost predicate JointRefused(data: seq<Byte>, bones: nat, e: Error)
    requires 24 <= |data|
  {
    && e == JointOutOfRange && Bit(data, 8) && AttributesEnd(data) <= |data|
    && exists k :: 0 <= k < 4 * U32(data, 8) && bones <= U32(data, JointsFrom(data) + 4 * k) < 0xFFFF_FFFF
  }

  /** The first n indices stand at pos and are in range. */
  ghost predicate IndicesFine(data: seq<Byte>, pos: nat, vertices: nat, n: nat) {
    pos + 4 * n <= |data| && forall i :: 0 <= i < n ==> U32(data, pos + 4 * i) < vertices
  }

  /** The bones stand at pos, and each may stand where it does. */
  ghost predicate BonesFine(data: seq<Byte>, pos: nat, bones: seq<Bone>) {
    HasBones(bones, data, pos) && forall i :: 0 <= i < |bones| ==> BoneOk(bones[i], i)
  }

  /** Behind the attributes: an index, a bone, and last a joint that names no bone. */
  ghost predicate BodyRefused(data: seq<Byte>, v: nat, n: nat, b: nat, pos: nat, behind: nat, e: Error)
    requires 24 <= |data| && behind == pos + 4 * n
  {
    || (exists i: nat :: i < n && IndicesFine(data, pos, v, i) && IndexRefused(data, pos + 4 * i, v, e))
    || (IndicesFine(data, pos, v, n) && BonesRefusedAt(data, behind, b, e))
  }

  ghost predicate BonesRefusedAt(data: seq<Byte>, pos: nat, b: nat, e: Error)
    requires 24 <= |data|
  {
    || (exists bones :: |bones| < b && BonesFine(data, pos, bones) && BoneRefused(data, BonesEnd(bones, pos), |bones|, e))
    || ((exists bones :: |bones| == b && BonesFine(data, pos, bones)) && JointRefused(data, b, e))
  }

  ghost predicate RefusedBehind(data: seq<Byte>, v: nat, n: nat, b: nat, pos: nat, behind: nat, e: Error)
    requires 24 <= |data| && behind == pos + 4 * n
  {
    if pos > |data| then e == Truncated else BodyRefused(data, v, n, b, pos, behind, e)
  }

  /** The first thing wrong, in the order of the data: the marks, the count of indices, no
      room for the attributes, and what is behind them. */
  ghost predicate Refused(data: seq<Byte>, e: Error) {
    if |data| < 4 then e == Truncated
    else if data[..4] != [0x52, 0x4D, 0x53, 0x48] then e == BadMagic
    else if |data| < 8 then e == Truncated
    else if data[4..8] != [1, 0, 0, 0] then e == BadVersion
    else if |data| < 24 then e == Truncated
    else if U32(data, 12) % 3 != 0 then e == BadIndexCount
    else RefusedBehind(data, U32(data, 8), U32(data, 12), U32(data, 20), AttributesEnd(data), AttributesEnd(data) + 4 * U32(data, 12), e)
  }

  lemma IndicesAreFine(data: seq<Byte>, pos: nat, vertices: nat, ws: seq<Word>, q: nat)
    requires pos <= |data| && Many(IndexItem(data, vertices), pos, |ws|) == At(ws, q)
    ensures IndicesFine(data, pos, vertices, |ws|) && q == pos + 4 * |ws|
  {
    IndicesThere(data, pos, ws, vertices, q);
    var inRange := (_: nat, w: Word) => w < vertices;
    ManySatisfies(IndexItem(data, vertices), inRange, pos, |ws|);
    forall i | 0 <= i < |ws| ensures U32(data, pos + 4 * i) < vertices {
      assert inRange(i, ws[i]) && HasWord(data, pos + 4 * i, ws[i]);
      WordAtIff(data, pos + 4 * i, ws[i], pos + 4 * i + 4);
      WordIs(data, pos + 4 * i);
    }
  }

  lemma BonesAreFine(data: seq<Byte>, pos: nat, bones: seq<Bone>, q: nat)
    requires pos <= |data| && Many(BoneItem(data), pos, |bones|) == At(bones, q)
    ensures BonesFine(data, pos, bones) && q == BonesEnd(bones, pos)
  {
    BonesThere(data, pos, bones, q);
    var boneOk := (i: nat, b: Bone) => BoneOk(b, i);
    ManySatisfies(BoneItem(data), boneOk, pos, |bones|);
    assert forall i :: 0 <= i < |bones| ==> boneOk(i, bones[i]);
  }

  lemma HeaderFails(data: seq<Byte>)
    requires HeaderAt(data).Bad?
    ensures Refused(data, HeaderAt(data).error)
    ensures |data| < 24 || data[..4] != [0x52, 0x4D, 0x53, 0x48] || data[4..8] != [1, 0, 0, 0] || U32(data, 12) % 3 != 0
  {
    WordIs(data, 0);
    WordIs(data, 4);
    WordIs(data, 8);
    WordIs(data, 12);
    WordIs(data, 16);
    WordIs(data, 20);
    if 4 <= |data| { MagicIs(data, 0, 0x52, 0x4D, 0x53, 0x48); }
    if 8 <= |data| { MagicIs(data, 4, 1, 0, 0, 0); }
  }

  lemma MagicIs(data: seq<Byte>, pos: nat, a: Byte, b: Byte, c: Byte, d: Byte)
    requires pos + 4 <= |data|
    ensures data[pos..pos + 4] == [a, b, c, d] <==> U32(data, pos) == U32([a, b, c, d], 0)
  {
    assert data[pos..pos + 4] == [data[pos], data[pos + 1], data[pos + 2], data[pos + 3]];
    if U32(data, pos) == U32([a, b, c, d], 0) {
      LeFromLe(data[pos..pos + 4]);
      LeFromLe([a, b, c, d]);
    }
  }

  lemma HeaderFine(data: seq<Byte>)
    requires HeaderAt(data).At?
    ensures 24 <= |data| && data[..4] == [0x52, 0x4D, 0x53, 0x48] && data[4..8] == [1, 0, 0, 0] && U32(data, 12) % 3 == 0
    ensures HeaderAt(data) == At(Header(U32(data, 8), U32(data, 12), U32(data, 16), U32(data, 20)), 24)
    ensures PresentIn(U32(data, 16)) == Present(Bit(data, 1), Bit(data, 2), Bit(data, 4), Bit(data, 8))
  {
    WordIs(data, 0);
    WordIs(data, 4);
    WordIs(data, 8);
    WordIs(data, 12);
    WordIs(data, 16);
    WordIs(data, 20);
    MagicIs(data, 0, 0x52, 0x4D, 0x53, 0x48);
    MagicIs(data, 4, 1, 0, 0, 0);
    BytesOfWord(data, 16, U32(data, 16));
  }

  lemma IndicesRefused(data: seq<Byte>, pos: nat, v: nat, n: nat, e: Error)
    requires pos <= |data| && Many(IndexItem(data, v), pos, n) == Bad(e)
    ensures exists i: nat :: i < n && IndicesFine(data, pos, v, i) && IndexRefused(data, pos + 4 * i, v, e)
  {
    var i, ts, p := ManyFails(IndexItem(data, v), pos, n);
    IndicesAreFine(data, pos, v, ts, p);
    IndexFails(data, p, v);
  }

  lemma BonesRefused(data: seq<Byte>, pos: nat, b: nat, e: Error)
    requires 24 <= |data| && pos <= |data| && Many(BoneItem(data), pos, b) == Bad(e)
    ensures BonesRefusedAt(data, pos, b, e)
  {
    var i, ts, p := ManyFails(BoneItem(data), pos, b);
    BonesAreFine(data, pos, ts, p);
    BoneFails(data, p, i);
  }

  lemma JointsLast(data: seq<Byte>, pos: nat, bones: seq<Bone>)
    requires 24 <= |data| && BonesFine(data, pos, bones) && JointRefused(data, |bones|, JointOutOfRange)
    ensures BonesRefusedAt(data, pos, |bones|, JointOutOfRange)
  {
  }

  /** Where the joints of accepted attributes begin. */
  lemma JointsBegin(data: seq<Byte>, m: Mesh)
    requires 24 <= |data| && PresentOf(m) == Present(Bit(data, 1), Bit(data, 2), Bit(data, 4), Bit(data, 8))
    requires AttributesShaped(m) && |m.positions| == U32(data, 8)
    ensures JointsAt(m) == JointsFrom(data)
  {
  }

  lemma JointStands(data: seq<Byte>, pos: nat, joints: Rows, v: nat, k: nat)
    requires HasRows(data, pos, joints, 4) && v < |joints| && k < |joints[v]| == 4
    ensures 4 * v + k < 4 * |joints| && pos + 4 * (4 * v + k) + 4 <= |data| && U32(data, pos + 4 * (4 * v + k)) == joints[v][k]
  {
    var p := pos + 4 * (4 * v + k);
    assert HasWords(data, pos + 4 * (4 * v), joints[v]);
    assert HasWord(data, pos + 4 * (4 * v) + 4 * k, joints[v][k]);
    WordAtIff(data, p, joints[v][k], p + 4);
    WordIs(data, p);
  }

  lemma JointsRefused(data: seq<Byte>, m: Mesh, bones: nat)
    requires 24 <= |data| && PresentOf(m) == Present(Bit(data, 1), Bit(data, 2), Bit(data, 4), Bit(data, 8))
    requires AttributesShaped(m) && |m.positions| == U32(data, 8) && HasAttributes(m, data) && AttributesEnd(data) <= |data|
    requires m.joints.Some? && !JointsOk(m.joints.value, bones)
    ensures JointRefused(data, bones, JointOutOfRange)
  {
    var joints := m.joints.value;
    var v, k :| 0 <= v < |joints| && 0 <= k < |joints[v]| && !JointOk(joints[v][k], bones);
    JointsBegin(data, m);
    JointStands(data, JointsFrom(data), joints, v, k);
    var slot := 4 * v + k;
    assert 0 <= slot < 4 * U32(data, 8) && bones <= U32(data, JointsFrom(data) + 4 * slot) < 0xFFFF_FFFF;
  }

  lemma AttributesAccepted(data: seq<Byte>, m: Mesh, v: nat, has: Present, p1: nat)
    requires 24 <= |data| && AttributesAt(RowsOf(data), 24, v, has) == At(AttributesOf(m), p1)
    ensures AttributesShaped(m) && |m.positions| == v && has == PresentOf(m) && HasAttributes(m, data)
  {
    AttributesHold(data, m, v, has, p1);
    forall p, count, width | RowsOf(data)(p, count, width).At?
      ensures RowsShaped(RowsOf(data)(p, count, width).value, count, width)
    {
      RowsAreShaped(data, p, count, width);
    }
    AttributesAreShaped(RowsOf(data), 24, v, has);
  }

  /** At which of its parts a body's parse stopped. */
  datatype Stop = AtAttributes | AtIndices(p1: nat) | AtBones(p1: nat, indices: seq<Word>, p2: nat)
                | AtJoints(a: Attributes, p1: nat, indices: seq<Word>, p2: nat, bones: seq<Bone>, p3: nat)

  ghost predicate Stopped(attributes: Parsed<Attributes>, index: (nat, nat) -> Parsed<Word>, bone: (nat, nat) -> Parsed<Bone>,
    n: nat, b: nat, e: Error, stop: Stop)
  {
    match stop
    case AtAttributes => attributes == Bad(e)
    case AtIndices(p1) => attributes.At? && attributes.pos == p1 && Many(index, p1, n) == Bad(e)
    case AtBones(p1, indices, p2) =>
      attributes.At? && attributes.pos == p1 && Many(index, p1, n) == At(indices, p2) && |indices| == n && Many(bone, p2, b) == Bad(e)
    case AtJoints(a, p1, indices, p2, bones, p3) =>
      && attributes == At(a, p1) && Many(index, p1, n) == At(indices, p2) && |indices| == n
      && Many(bone, p2, b) == At(bones, p3) && |bones| == b
      && a.joints.Some? && !JointsOk(a.joints.value, b) && e == JointOutOfRange
  }

  lemma BodyStops(rows: RowReader, index: (nat, nat) -> Parsed<Word>, bone: (nat, nat) -> Parsed<Bone>, pos: nat,
    v: nat, has: Present, n: nat, b: nat, e: Error) returns (stop: Stop)
    requires BodyOf(rows, index, bone, pos, v, has, n, b) == Bad(e)
    ensures Stopped(AttributesAt(rows, pos, v, has), index, bone, n, b, e, stop)
  {
    var a := AttributesAt(rows, pos, v, has);
    if a.Bad? { return AtAttributes; }
    var indices := Many(index, a.pos, n);
    if indices.Bad? { return AtIndices(a.pos); }
    var bones := Many(bone, indices.pos, b);
    if bones.Bad? { return AtBones(a.pos, indices.value, indices.pos); }
    stop := AtJoints(a.value, a.pos, indices.value, indices.pos, bones.value, bones.pos);
  }

  lemma BonesStop(data: seq<Byte>, v: nat, b: nat, pos: nat, indices: seq<Word>, p2: nat, e: Error)
    requires 24 <= |data| && pos <= |data| && Many(IndexItem(data, v), pos, |indices|) == At(indices, p2)
    requires Many(BoneItem(data), p2, b) == Bad(e)
    ensures p2 == pos + 4 * |indices| && BodyRefused(data, v, |indices|, b, pos, p2, e)
  {
    IndicesAreFine(data, pos, v, indices, p2);
    assert p2 <= |data|;
    BonesRefused(data, p2, b, e);
  }

  lemma JointsStop(data: seq<Byte>, v: nat, has: Present, a: Attributes, pos: nat, indices: seq<Word>, p2: nat, bones: seq<Bone>, p3: nat)
    requires 24 <= |data| && has == Present(Bit(data, 1), Bit(data, 2), Bit(data, 4), Bit(data, 8)) && v == U32(data, 8)
    requires pos == AttributesEnd(data) <= |data| && AttributesAt(RowsOf(data), 24, v, has) == At(a, pos)
    requires Many(IndexItem(data, v), pos, |indices|) == At(indices, p2) && Many(BoneItem(data), p2, |bones|) == At(bones, p3)
    requires a.joints.Some? && !JointsOk(a.joints.value, |bones|)
    ensures p2 == pos + 4 * |indices| && BodyRefused(data, v, |indices|, |bones|, pos, p2, JointOutOfRange)
  {
    var m := Mesh(a.positions, a.normals, a.uvs, a.colors, a.joints, a.weights, indices, bones);
    SkinRefused(data, m, v, has, pos);
    IndicesAreFine(data, pos, v, indices, p2);
    assert p2 <= |data|;
    BonesAreFine(data, p2, bones, p3);
    JointsLast(data, p2, bones);
  }

  lemma SkinRefused(data: seq<Byte>, m: Mesh, v: nat, has: Present, pos: nat)
    requires 24 <= |data| && has == Present(Bit(data, 1), Bit(data, 2), Bit(data, 4), Bit(data, 8)) && v == U32(data, 8)
    requires pos == AttributesEnd(data) <= |data| && AttributesAt(RowsOf(data), 24, v, has) == At(AttributesOf(m), pos)
    requires m.joints.Some? && !JointsOk(m.joints.value, |m.bones|)
    ensures JointRefused(data, |m.bones|, JointOutOfRange)
  {
    AttributesAccepted(data, m, v, has, pos);
    JointsRefused(data, m, |m.bones|);
  }

  lemma StoppedRefused(data: seq<Byte>, v: nat, has: Present, n: nat, b: nat, pos: nat, behind: nat, e: Error, stop: Stop)
    requires 24 <= |data| && has == Present(Bit(data, 1), Bit(data, 2), Bit(data, 4), Bit(data, 8)) && v == U32(data, 8)
    requires pos == AttributesEnd(data) <= |data| && behind == pos + 4 * n
    requires AttributesAt(RowsOf(data), 24, v, has).At? && AttributesAt(RowsOf(data), 24, v, has).pos == pos
    requires Stopped(AttributesAt(RowsOf(data), 24, v, has), IndexItem(data, v), BoneItem(data), n, b, e, stop)
    ensures BodyRefused(data, v, n, b, pos, behind, e)
  {
    match stop
    case AtIndices(p1) => IndicesRefused(data, pos, v, n, e);
    case AtBones(p1, indices, p2) =>
      BonesStop(data, v, b, pos, indices, p2, e);
      assert p2 == behind;
    case AtJoints(a, p1, indices, p2, bones, p3) =>
      JointsStop(data, v, has, a, pos, indices, p2, bones, p3);
      assert p2 == behind;
  }

  lemma BodyFails(data: seq<Byte>, v: nat, has: Present, n: nat, b: nat, pos: nat, behind: nat, e: Error)
    requires 24 <= |data| && has == Present(Bit(data, 1), Bit(data, 2), Bit(data, 4), Bit(data, 8)) && v == U32(data, 8)
    requires pos == AttributesEnd(data) && behind == pos + 4 * n
    requires BodyOf(RowsOf(data), IndexItem(data, v), BoneItem(data), 24, v, has, n, b) == Bad(e)
    ensures if pos > |data| then e == Truncated else BodyRefused(data, v, n, b, pos, behind, e)
  {
    RowsNeedRoom(data);
    AttributesRoom(RowsOf(data), data, v, has, JointsFrom(data), pos);
    var stop := BodyStops(RowsOf(data), IndexItem(data, v), BoneItem(data), 24, v, has, n, b, e);
    if pos <= |data| { StoppedRefused(data, v, has, n, b, pos, behind, e, stop); }
  }

  lemma DecodesBody(data: seq<Byte>, h: Header)
    requires HeaderAt(data) == At(h, 24) && Decode(data).Err?
    ensures BodyOf(RowsOf(data), IndexItem(data, h.vertices), BoneItem(data), 24, h.vertices, PresentIn(h.flags), h.indices, h.bones)
            == Bad(Decode(data).error)
  {
  }

  lemma BodyError(data: seq<Byte>, v: Word, n: Word, b: Word, pos: nat, behind: nat)
    requires HeaderAt(data).At? && Decode(data).Err? && 24 <= |data|
    requires v == U32(data, 8) && n == U32(data, 12) && b == U32(data, 20) && pos == AttributesEnd(data) && behind == pos + 4 * n
    ensures RefusedBehind(data, v, n, b, pos, behind, Decode(data).error)
  {
    HeaderFine(data);
    var h := Header(v, n, U32(data, 16), b);
    DecodesBody(data, h);
    BodyFails(data, v, PresentIn(h.flags), n, b, pos, behind, Decode(data).error);
  }

  /** Whatever is refused is refused for the first thing wrong with it. */
  lemma DecodeRefuses(data: seq<Byte>)
    requires Decode(data).Err?
    ensures Refused(data, Decode(data).error)
  {
    if HeaderAt(data).Bad? {
      HeaderFails(data);
    } else {
      BodyRefuses(data);
    }
  }

  lemma BodyRefuses(data: seq<Byte>)
    requires Decode(data).Err? && HeaderAt(data).At?
    ensures Refused(data, Decode(data).error)
  {
    HeaderFine(data);
    BodyBlames(data);
    RefusedLast(data, Decode(data).error);
  }

  lemma BodyBlames(data: seq<Byte>)
    requires HeaderAt(data).At? && Decode(data).Err? && 24 <= |data|
    ensures RefusedBehind(data, U32(data, 8), U32(data, 12), U32(data, 20), AttributesEnd(data), AttributesEnd(data) + 4 * U32(data, 12),
              Decode(data).error)
  {
    BodyError(data, U32(data, 8), U32(data, 12), U32(data, 20), AttributesEnd(data), AttributesEnd(data) + 4 * U32(data, 12));
  }

  lemma RefusedLast(data: seq<Byte>, e: Error)
    requires 24 <= |data| && data[..4] == [0x52, 0x4D, 0x53, 0x48] && data[4..8] == [1, 0, 0, 0] && U32(data, 12) % 3 == 0
    requires RefusedBehind(data, U32(data, 8), U32(data, 12), U32(data, 20), AttributesEnd(data), AttributesEnd(data) + 4 * U32(data, 12), e)
    ensures Refused(data, e)
  {
  }

  method DecodeBlob(data: seq<Byte>) returns (r: Result<Mesh>)
    ensures r == Decode(data)
    ensures r.Ok? ==> WellFormed(r.value) && Holds(r.value, data)
    ensures r.Err? ==> Refused(data, r.error)
  {
    var c := new Cursor(data);
    if Decode(data).Err? { DecodeRefuses(data); } else { DecodeIff(data, Decode(data).value); }
    var h :- c.ReadHeader();
    r := c.ReadBody(h);
  }
}
