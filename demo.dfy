/**
 * The command-line demo: writeDeviationPLY (a binary little-endian PLY with
 * per-vertex colours), compareTwoVector, and the extension rules main applies
 * to the output path (computeMedianEdgeLength is in MedianEdge).
 *
 * A float is written as its IEEE-754 single-precision bit pattern, supplied
 * by the caller as `f32`, in the byte order of a little-endian host; the
 * Euclidean `length` takes its square root from the caller as `sqrt`.
 */
module Demo {
  import opened Numeric
  import opened Wrappers
  import opened MeshTypes
  import opened Paths
  import opened DeviationColor
  import opened PlyReader

  // ----- the PLY header as written -----

  /** A header word and the white-space byte written after it. */
  datatype Token = Token(word: seq<byte>, sep: byte)

  const SP: byte := 32
  const NL: byte := 10

  /** The bytes of the tokens, each word followed by its separator. */
  function Render(ts: seq<Token>): (b: seq<byte>)
    decreases |ts|
  {
    if ts == [] then [] else ts[0].word + [ts[0].sep] + Render(ts[1..])
  }

  /** "property <type> <name>\n" */
  function PropertyLine(kind: string, name: string): seq<Token>
    requires IsAscii(kind) && IsAscii(name)
  {
    [Token(Ascii("property"), SP), Token(Ascii(kind), SP), Token(Ascii(name), NL)]
  }

  /**
   * The header writeDeviationPLY writes: "ply", "format binary_little_endian
   * 1.0", "element vertex N", float x, y, z and uchar red, green, blue
   * properties, "element face M", "property list uchar int vertex_indices",
   * "end_header", one per line.
   */
  function PlyHeader(vertexCount: nat, faceCount: nat): seq<Token>
  {
    NatToStringIsAscii(vertexCount);
    NatToStringIsAscii(faceCount);
    [Token(Ascii("ply"), NL),
     Token(PLY_FORMAT, SP), Token(BINARY_LITTLE_ENDIAN, SP), Token(Ascii("1.0"), NL),
     Token(ELEMENT, SP), Token(VERTEX, SP), Token(Ascii(NatToString(vertexCount)), NL)] +
    PropertyLine("float", "x") + PropertyLine("float", "y") + PropertyLine("float", "z") +
    PropertyLine("uchar", "red") + PropertyLine("uchar", "green") + PropertyLine("uchar", "blue") +
    [Token(ELEMENT, SP), Token(FACE, SP), Token(Ascii(NatToString(faceCount)), NL),
     Token(Ascii("property"), SP), Token(Ascii("list"), SP), Token(Ascii("uchar"), SP),
     Token(Ascii("int"), SP), Token(Ascii("vertex_indices"), NL),
     Token(END_HEADER, NL)]
  }

  // ----- the body as written -----

  /**
   * toUChar: x * 255 clamped into [0, 255] and truncated. Inputs at or below 0
   * give 0, inputs at or above 1 give 255, and in between the byte is the
   * whole part of x * 255.
   */
  function ToUChar(x: real): (b: byte)
    ensures x <= 0.0 ==> b == 0
    ensures 1.0 <= x ==> b == 255
    ensures 0.0 <= x < 1.0 ==> b as real <= x * 255.0 < b as real + 1.0
  {
    Trunc(Clamp(x * 255.0, 0.0, 255.0)) as byte
  }

  /** The colour of a vertex: deviation2Color with its default arguments, of the deviation clamped to [0,1]. */
  function DeviationColorOf(d: real): (c: Float3)
    ensures c in DefaultMap
  {
    Deviation2Color(Clamp(d, 0.0, 1.0), 4, [])
  }

  /** The colour of every vertex, in vertex order. */
  function Colors(deviations: seq<real>): (cs: seq<Float3>)
    ensures |cs| == |deviations|
    ensures forall i :: 0 <= i < |cs| ==> cs[i] == DeviationColorOf(deviations[i])
  {
    seq(|deviations|, i requires 0 <= i < |deviations| => DeviationColorOf(deviations[i]))
  }

  /** One vertex: x, y and z as 4-byte floats, then the red, green and blue bytes. */
  function VertexRecord(v: Float3, c: Float3, f32: real -> uint32): (b: seq<byte>)
    ensures |b| == 15
  {
    LE32(f32(v.x)) + LE32(f32(v.y)) + LE32(f32(v.z)) + [ToUChar(c.x), ToUChar(c.y), ToUChar(c.z)]
  }

  /** One face: the count byte 3, then the three indices as 4-byte integers. */
  function FaceRecord(f: UInt3): (b: seq<byte>)
    ensures |b| == 13
  {
    [3] + LE32(f.x) + LE32(f.y) + LE32(f.z)
  }

  /** Each vertex paired with its colour. */
  function Colored(vs: seq<Float3>, cs: seq<Float3>): (ps: seq<(Float3, Float3)>)
    requires |vs| == |cs|
    ensures |ps| == |vs|
    ensures forall i :: 0 <= i < |ps| ==> ps[i] == (vs[i], cs[i])
  {
    seq(|vs|, i requires 0 <= i < |vs| => (vs[i], cs[i]))
  }

  /** The vertex record as a function of a coloured vertex. */
  function VertexRecordOf(f32: real -> uint32): (rec: ((Float3, Float3)) -> seq<byte>)
    ensures HasWidth(rec, 15)
  {
    (p: (Float3, Float3)) => VertexRecord(p.0, p.1, f32)
  }

  // ----- records laid end to end -----

  /** Every record rec produces is w bytes long. */
  ghost predicate HasWidth<T(!new)>(rec: T -> seq<byte>, w: nat)
  {
    forall x :: |rec(x)| == w
  }

  /** The records of xs, in order, with nothing between them. */
  function Records<T>(xs: seq<T>, rec: T -> seq<byte>): (b: seq<byte>)
    decreases |xs|
  {
    if xs == [] then [] else Records(xs[..|xs| - 1], rec) + rec(xs[|xs| - 1])
  }

  lemma {:induction false} RecordsLength<T(!new)>(xs: seq<T>, rec: T -> seq<byte>, w: nat)
    requires HasWidth(rec, w)
    ensures |Records(xs, rec)| == w * |xs|
    decreases |xs|
  {
    if xs != [] {
      RecordsLength(xs[..|xs| - 1], rec, w);
      assert w * (|xs| - 1) + w == w * |xs|;
    }
  }

  /** Appending one item appends its record. */
  lemma RecordsSnoc<T>(xs: seq<T>, rec: T -> seq<byte>, i: nat)
    requires i < |xs|
    ensures Records(xs[..i + 1], rec) == Records(xs[..i], rec) + rec(xs[i])
  {
    assert xs[..i + 1][..i] == xs[..i];
  }

  /** The records of a + b are those of a followed by those of b. */
  lemma {:induction false} RecordsAppend<T>(a: seq<T>, b: seq<T>, rec: T -> seq<byte>)
    ensures Records(a + b, rec) == Records(a, rec) + Records(b, rec)
    decreases |b|
  {
    if b != [] {
      var n := |b|;
      assert (a + b)[..|a + b| - 1] == a + b[..n - 1];
      assert (a + b)[|a + b| - 1] == b[n - 1];
      RecordsAppend(a, b[..n - 1], rec);
      var ra, rb, r := Records(a, rec), Records(b[..n - 1], rec), rec(b[n - 1]);
      assert ra + rb + r == ra + (rb + r);
    } else {
      assert a + b == a;
    }
  }

  /** Record i follows the records of the items before it. */
  lemma RecordAt<T>(xs: seq<T>, rec: T -> seq<byte>, i: nat)
    requires i < |xs|
    ensures var k := |Records(xs[..i], rec)|;
      k + |rec(xs[i])| <= |Records(xs, rec)| && Records(xs, rec)[k..k + |rec(xs[i])|] == rec(xs[i])
  {
    assert xs == xs[..i + 1] + xs[i + 1..];
    RecordsAppend(xs[..i + 1], xs[i + 1..], rec);
    RecordsSnoc(xs, rec, i);
    var pre, r, post := Records(xs[..i], rec), rec(xs[i]), Records(xs[i + 1..], rec);
    assert (pre + r + post)[|pre|..|pre| + |r|] == r;
  }

  // ----- the file -----

  /** writeDeviationPLY writes only a non-empty mesh with one deviation per vertex. */
  predicate WritesPly(mesh: TriangleMesh, deviations: seq<real>)
  {
    mesh.vertex != [] && mesh.index != [] && |deviations| == |mesh.vertex|
  }

  /** The bytes after the header: the vertex records, then the face records. */
  function PlyBody(mesh: TriangleMesh, colors: seq<Float3>, f32: real -> uint32): (b: seq<byte>)
    requires |colors| == |mesh.vertex|
  {
    Records(Colored(mesh.vertex, colors), VertexRecordOf(f32)) + Records(mesh.index, FaceRecord)
  }

  /** The bytes of the file, given each vertex's colour. */
  function DeviationPly(mesh: TriangleMesh, colors: seq<Float3>, f32: real -> uint32): (b: seq<byte>)
    requires |colors| == |mesh.vertex|
  {
    Render(PlyHeader(|mesh.vertex|, |mesh.index|)) + PlyBody(mesh, colors, f32)
  }

  /**
   * writeDeviationPLY: the file's bytes, or None when nothing is written (an
   * empty mesh, a deviation count other than the vertex count, or a file that
   * cannot be opened).
   */
  method WriteDeviationPly(mesh: TriangleMesh, deviations: seq<real>, canOpen: bool, f32: real -> uint32)
    returns (file: Option<seq<byte>>)
    ensures file.Some? <==> WritesPly(mesh, deviations) && canOpen
    ensures file.Some? ==> file.value == DeviationPly(mesh, Colors(deviations), f32)
  {
    if mesh.vertex == [] || mesh.index == [] {
      return None;
    }
    if |deviations| != |mesh.vertex| {
      return None;
    }
    var colors := ComputeColors(deviations);
    if !canOpen {
      return None;
    }
    var header := Render(PlyHeader(|mesh.vertex|, |mesh.index|));
    var out := WriteVertexRecords(header, mesh.vertex, colors, f32);
    out := WriteFaceRecords(out, mesh.index);
    Regroup(header, Records(Colored(mesh.vertex, colors), VertexRecordOf(f32)), Records(mesh.index, FaceRecord));
    return Some(out);
  }

  /** Regrouping a concatenation, stated once so that the method above does not unfold its sections. */
  lemma Regroup(a: seq<byte>, b: seq<byte>, c: seq<byte>)
    ensures a + b + c == a + (b + c)
  {
  }

  /** The colour loop of writeDeviationPLY: deviation2Color of each clamped deviation. */
  method ComputeColors(deviations: seq<real>) returns (colors: seq<Float3>)
    ensures colors == Colors(deviations)
  {
    var n := |deviations|;
    colors := Filled(n, Float3(0.0, 0.0, 0.0));
    for i := 0 to n
      invariant |colors| == n
      invariant forall j :: 0 <= j < i ==> colors[j] == DeviationColorOf(deviations[j])
    {
      var nd := Clamp(deviations[i], 0.0, 1.0);
      colors := colors[i := Deviation2Color(nd, 4, [])];
    }
  }

  /** The vertex loop: appends one 15-byte record per vertex to what is written so far. */
  method WriteVertexRecords(written: seq<byte>, vs: seq<Float3>, cs: seq<Float3>, f32: real -> uint32)
    returns (out: seq<byte>)
    requires |vs| == |cs|
    ensures out == written + Records(Colored(vs, cs), VertexRecordOf(f32))
  {
    ghost var ps := Colored(vs, cs);
    out := written;
    for i := 0 to |vs|
      invariant out == written + Records(ps[..i], VertexRecordOf(f32))
    {
      var v, c := vs[i], cs[i];
      var position := LE32(f32(v.x)) + LE32(f32(v.y)) + LE32(f32(v.z));
      var color := [ToUChar(c.x), ToUChar(c.y), ToUChar(c.z)];
      RecordsSnoc(ps, VertexRecordOf(f32), i);
      out := out + (position + color);
    }
    assert ps[..|vs|] == ps;
  }

  /** The face loop: appends one 13-byte record per face. */
  method WriteFaceRecords(written: seq<byte>, fs: seq<UInt3>) returns (out: seq<byte>)
    ensures out == written + Records(fs, FaceRecord)
  {
    out := written;
    for i := 0 to |fs|
      invariant out == written + Records(fs[..i], FaceRecord)
    {
      var f := fs[i];
      var indices := LE32(f.x) + LE32(f.y) + LE32(f.z);
      RecordsSnoc(fs, FaceRecord, i);
      out := out + ([3] + indices);
    }
    assert fs[..|fs|] == fs;
  }

  // ----- the layout of the file -----

  /** After the header come 15 bytes per vertex and 13 per face. */
  lemma PlyBodyLength(mesh: TriangleMesh, colors: seq<Float3>, f32: real -> uint32)
    requires |colors| == |mesh.vertex|
    ensures |PlyBody(mesh, colors, f32)| == 15 * |mesh.vertex| + 13 * |mesh.index|
  {
    FaceRecordWidth();
    RecordsLength(Colored(mesh.vertex, colors), VertexRecordOf(f32), 15);
    RecordsLength(mesh.index, FaceRecord, 13);
  }

  /** Vertex i is written at byte 15i of the body: its position, then the bytes of its colour. */
  lemma VertexInPly(mesh: TriangleMesh, colors: seq<Float3>, f32: real -> uint32, i: nat)
    requires |colors| == |mesh.vertex| && i < |mesh.vertex|
    ensures var b := PlyBody(mesh, colors, f32);
      15 * i + 15 <= |b| && b[15 * i..15 * i + 15] == VertexRecord(mesh.vertex[i], colors[i], f32)
  {
    var ps, rec := Colored(mesh.vertex, colors), VertexRecordOf(f32);
    SectionRecordAt(ps, rec, 15, i, 15 * i);
    assert (Records(ps, rec) + Records(mesh.index, FaceRecord))[15 * i..15 * i + 15] == rec(ps[i]);
    ColoredRecord(mesh.vertex, colors, f32, i);
  }

  lemma ColoredRecord(vs: seq<Float3>, cs: seq<Float3>, f32: real -> uint32, i: nat)
    requires |vs| == |cs| && i < |vs|
    ensures VertexRecordOf(f32)(Colored(vs, cs)[i]) == VertexRecord(vs[i], cs[i], f32)
  {
  }

  /** Face j is written at byte 15|V| + 13j of the body: the count 3, then its three indices. */
  lemma FaceInPly(mesh: TriangleMesh, colors: seq<Float3>, f32: real -> uint32, j: nat)
    requires |colors| == |mesh.vertex| && j < |mesh.index|
    ensures var b, at := PlyBody(mesh, colors, f32), 15 * |mesh.vertex| + 13 * j;
      at + 13 <= |b| && b[at..at + 13] == FaceRecord(mesh.index[j])
  {
    var ps, rec := Colored(mesh.vertex, colors), VertexRecordOf(f32);
    RecordsLength(ps, rec, 15);
    FaceRecordWidth();
    SectionRecordAt(mesh.index, FaceRecord, 13, j, 13 * j);
    assert (Records(ps, rec) + Records(mesh.index, FaceRecord))[|Records(ps, rec)| + 13 * j..|Records(ps, rec)| + 13 * j + 13] == FaceRecord(mesh.index[j]);
  }

  lemma FaceRecordWidth()
    ensures HasWidth(FaceRecord, 13)
  {
  }

  /** Record i of a section of w-byte records sits at byte w * i. */
  lemma SectionRecordAt<T(!new)>(xs: seq<T>, rec: T -> seq<byte>, w: nat, i: nat, k: nat)
    requires HasWidth(rec, w) && i < |xs| && k == w * i
    ensures k + w <= |Records(xs, rec)| && Records(xs, rec)[k..k + w] == rec(xs[i])
  {
    RecordAt(xs, rec, i);
    RecordsLength(xs[..i], rec, w);
    RecordsLength(xs, rec, w);
    assert w * (i + 1) <= w * |xs|;
  }

  /** A face record reads back as the count 3 and the face's three indices. */
  lemma FaceRecordReadsBack(f: UInt3)
    ensures var b := FaceRecord(f);
      b[0] == 3 && DecodeLE32(b[1..5]) == f.x && DecodeLE32(b[5..9]) == f.y && DecodeLE32(b[9..13]) == f.z
  {
    var b := FaceRecord(f);
    assert b[1..5] == LE32(f.x) && b[5..9] == LE32(f.y) && b[9..13] == LE32(f.z);
    LE32RoundTrip(f.x);
    LE32RoundTrip(f.y);
    LE32RoundTrip(f.z);
  }

  /** The position bytes of a vertex record decode to the bit patterns of x, y and z. */
  lemma VertexRecordReadsBack(v: Float3, c: Float3, f32: real -> uint32)
    ensures var b := VertexRecord(v, c, f32);
      DecodeLE32(b[0..4]) == f32(v.x) && DecodeLE32(b[4..8]) == f32(v.y) && DecodeLE32(b[8..12]) == f32(v.z) &&
      b[12..] == [ToUChar(c.x), ToUChar(c.y), ToUChar(c.z)]
  {
    var b := VertexRecord(v, c, f32);
    assert b[0..4] == LE32(f32(v.x)) && b[4..8] == LE32(f32(v.y)) && b[8..12] == LE32(f32(v.z));
    LE32RoundTrip(f32(v.x));
    LE32RoundTrip(f32(v.y));
    LE32RoundTrip(f32(v.z));
  }

  // ----- compareTwoVector -----

  /** The default tolerance, 1e-6. */
  const DEFAULT_TOLERANCE: real := 0.000001

  /** Same length, and every pair of entries at most tol apart. */
  predicate WithinTolerance(a: seq<real>, b: seq<real>, tol: real)
  {
    |a| == |b| && forall i :: 0 <= i < |a| ==> Abs(a[i] - b[i]) <= tol
  }

  /** compareTwoVector: false on a size mismatch, false at the first pair more than tol apart, true otherwise. */
  method CompareTwoVector(a: seq<real>, b: seq<real>, tol: real) returns (same: bool)
    ensures same <==> WithinTolerance(a, b, tol)
  {
    if |a| != |b| {
      return false;
    }
    for i := 0 to |a|
      invariant forall k :: 0 <= k < i ==> Abs(a[k] - b[k]) <= tol
    {
      if Abs(a[i] - b[i]) > tol {
        return false;
      }
    }
    return true;
  }

  /** A vector matches itself under any non-negative tolerance. */
  lemma {:induction false} ToleranceReflexive(a: seq<real>, tol: real)
    requires 0.0 <= tol
    ensures WithinTolerance(a, a, tol)
  {
    assert Abs(0.0) == 0.0;
  }

  /** The comparison does not depend on the order of its arguments. */
  lemma {:induction false} ToleranceSymmetric(a: seq<real>, b: seq<real>, tol: real)
    ensures WithinTolerance(a, b, tol) <==> WithinTolerance(b, a, tol)
  {
    forall i | 0 <= i < |a| && |a| == |b|
      ensures Abs(a[i] - b[i]) == Abs(b[i] - a[i])
    {
    }
  }

  /** A larger tolerance accepts everything a smaller one does. */
  lemma {:induction false} ToleranceWidens(a: seq<real>, b: seq<real>, tol: real, wider: real)
    requires tol <= wider && WithinTolerance(a, b, tol)
    ensures WithinTolerance(a, b, wider)
  {
  }

  // ----- the output paths of main -----

  /** The PLY output: the path given, with ".ply" added when it has no extension. */
  function OutputPlyPath(p: Path): (q: Path)
    ensures HasExtension(p) ==> q == p
  {
    if !HasExtension(p) then ReplaceExtension(p, ".ply") else p
  }

  /** The OBJ output: the PLY output with its extension replaced by ".obj". */
  function OutputObjPath(p: Path): (q: Path)
  {
    ReplaceExtension(OutputPlyPath(p), ".obj")
  }

  /** A missing extension becomes ".ply" and an existing one is kept; the stem is the input's. */
  lemma {:induction false} PlyPathExtension(p: Path)
    requires Filename(p) != ""
    ensures !HasExtension(p) ==> Extension(OutputPlyPath(p)) == ".ply"
    ensures HasExtension(p) ==> Extension(OutputPlyPath(p)) == Extension(p)
    ensures Stem(OutputPlyPath(p)) == Stem(p) != ""
  {
    assert Stem(p) + Extension(p) == Filename(p);
    if !HasExtension(p) {
      ReplaceExtensionResult(p, ".ply");
    }
  }

  /**
   * The OBJ output differs from the PLY output only in its extension, which
   * is ".obj", for any path with a filename.
   */
  lemma {:induction false} OutputPathsShareStem(p: Path)
    requires Filename(p) != ""
    ensures Extension(OutputObjPath(p)) == ".obj"
    ensures Stem(OutputObjPath(p)) == Stem(OutputPlyPath(p)) == Stem(p)
    ensures RemoveExtension(OutputObjPath(p)) == RemoveExtension(OutputPlyPath(p))
  {
    PlyPathExtension(p);
    ReplacedByObj(OutputPlyPath(p));
  }

  lemma ReplacedByObj(ply: Path)
    requires Stem(ply) != ""
    ensures Extension(ReplaceExtension(ply, ".obj")) == ".obj"
    ensures Stem(ReplaceExtension(ply, ".obj")) == Stem(ply)
    ensures RemoveExtension(ReplaceExtension(ply, ".obj")) == RemoveExtension(ply)
  {
    ObjIsProper();
    ReplaceExtensionResult(ply, ".obj");
    var obj := ReplaceExtension(ply, ".obj");
    assert RemoveExtension(obj) + ".obj" == RemoveExtension(ply) + ".obj";
  }

  lemma ObjIsProper()
    ensures ProperExtension(".obj")
  {
  }
}
