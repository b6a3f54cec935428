/**
 * The helpers of the mesh loader: byte swapping, the ordering of OBJ index
 * triples, vertex de-duplication while meshes are built (addVertex), texture
 * loading with its cache and vertical mirror (loadTexture), the model a PLY
 * file becomes (loadPLY) and the choice of loader by file extension.
 */
module ObjectLoading {
  import opened Numeric
  import opened Wrappers
  import opened MeshTypes
  import opened Paths

  // ----- ByteSwap -----

  /** ByteSwap: the bytes of a value in reverse order. */
  function ByteSwap(b: seq<byte>): (r: seq<byte>)
    ensures |r| == |b|
  {
    if b == [] then [] else ByteSwap(b[1..]) + [b[0]]
  }

  /** Byte i of the swapped value is byte |b|-1-i of the original. */
  lemma {:induction false} ByteSwapAt(b: seq<byte>)
    ensures forall i :: 0 <= i < |b| ==> ByteSwap(b)[i] == b[|b| - 1 - i]
  {
    if b != [] {
      ByteSwapAt(b[1..]);
    }
  }

  /** Swapping twice restores the value. */
  lemma ByteSwapInvolution(b: seq<byte>)
    ensures ByteSwap(ByteSwap(b)) == b
  {
    ByteSwapAt(b);
    ByteSwapAt(ByteSwap(b));
  }

  // ----- tinyobj::index_t and its operator< -----

  /** An OBJ corner: indices into the position, normal and texture-coordinate arrays (-1 when absent). */
  datatype ObjIndex = ObjIndex(vertexIndex: int, normalIndex: int, texcoordIndex: int)

  /** operator<: compares the vertex, then the normal, then the texcoord index. */
  function IndexLess(a: ObjIndex, b: ObjIndex): (r: bool)
    ensures r <==> a.vertexIndex < b.vertexIndex ||
                   (a.vertexIndex == b.vertexIndex && (a.normalIndex < b.normalIndex ||
                     (a.normalIndex == b.normalIndex && a.texcoordIndex < b.texcoordIndex)))
  {
    if a.vertexIndex < b.vertexIndex then true
    else if a.vertexIndex > b.vertexIndex then false
    else if a.normalIndex < b.normalIndex then true
    else if a.normalIndex > b.normalIndex then false
    else if a.texcoordIndex < b.texcoordIndex then true
    else if a.texcoordIndex > b.texcoordIndex then false
    else false
  }

  /** operator< is a strict total order: irreflexive, transitive, and any two distinct triples are ordered one way. */
  lemma IndexLessIsStrictTotalOrder(a: ObjIndex, b: ObjIndex, c: ObjIndex)
    ensures !IndexLess(a, a)
    ensures IndexLess(a, b) && IndexLess(b, c) ==> IndexLess(a, c)
    ensures a != b ==> (IndexLess(a, b) <==> !IndexLess(b, a))
  {
  }

  // ----- addVertex -----

  /** The attribute arrays tinyobj fills. */
  datatype Attributes = Attributes(vertices: seq<Float3>, normals: seq<Float3>, texcoords: seq<Float2>)

  /** The indices of a corner address existing attributes (a negative normal or texcoord index means none). */
  predicate IndexValid(attrs: Attributes, idx: ObjIndex)
  {
    0 <= idx.vertexIndex < |attrs.vertices| &&
    idx.normalIndex < |attrs.normals| && idx.texcoordIndex < |attrs.texcoords|
  }

  /** `while (v.size() < n) v.push_back(x)`. */
  function PadTo<T>(s: seq<T>, n: nat, fill: T): (r: seq<T>)
    ensures |r| == if |s| < n then n else |s|
    ensures r[..|s|] == s
    ensures forall i :: |s| <= i < |r| ==> r[i] == fill
  {
    if |s| < n then s + seq(n - |s|, _ => fill) else s
  }

  /** std::vector::resize(n) with default-constructed new elements. */
  function Resize<T>(s: seq<T>, n: nat, zero: T): (r: seq<T>)
    ensures |r| == n
    ensures forall i :: 0 <= i < n ==> r[i] == if i < |s| then s[i] else zero
  {
    if n <= |s| then s[..n] else s + seq(n - |s|, _ => zero)
  }

  /**
   * An attribute array after addVertex added the n-th vertex: padded with
   * the corner's value when it has one, then resized to n when non-empty.
   */
  function FillAttribute<T>(s: seq<T>, n: nat, k: int, values: seq<T>, zero: T): (r: seq<T>)
    requires k < |values|
    ensures |r| == 0 || |r| == n
    ensures 0 <= k ==> |r| == n
    ensures forall i :: 0 <= i < |r| && i < |s| ==> r[i] == s[i]
    ensures 0 <= k ==> forall i :: |s| <= i < n ==> r[i] == values[k]
  {
    var padded := if 0 <= k then PadTo(s, n, values[k]) else s;
    if |padded| > 0 then Resize(padded, n, zero) else padded
  }

  /** The mesh, the known-vertex map and the returned id after addVertex. */
  datatype AddResult = AddResult(mesh: TriangleMesh, known: map<int, int>, id: int)

  const ZeroFloat3 := Float3(0.0, 0.0, 0.0)
  const ZeroFloat2 := Float2(0.0, 0.0)

  /**
   * addVertex: a vertex index seen before returns its stored id and changes
   * nothing; a new one gets the current vertex count as id, appends its
   * position, is recorded, and the normal and texcoord arrays are brought to
   * the new vertex count (or left empty).
   */
  function AddVertexSpec(mesh: TriangleMesh, known: map<int, int>, attrs: Attributes, idx: ObjIndex): (r: AddResult)
    requires IndexValid(attrs, idx)
    ensures idx.vertexIndex in known ==> r == AddResult(mesh, known, known[idx.vertexIndex])
    ensures idx.vertexIndex !in known ==>
      r.id == |mesh.vertex| && r.mesh.vertex == mesh.vertex + [attrs.vertices[idx.vertexIndex]] &&
      r.known == known[idx.vertexIndex := r.id] &&
      r.mesh.index == mesh.index && r.mesh.name == mesh.name &&
      r.mesh.materialID == mesh.materialID && r.mesh.materialTextureID == mesh.materialTextureID
    ensures idx.vertexIndex !in known ==> AttributesAligned(r.mesh)
  {
    if idx.vertexIndex in known then AddResult(mesh, known, known[idx.vertexIndex])
    else
      var id := |mesh.vertex|;
      var vertex := mesh.vertex + [attrs.vertices[idx.vertexIndex]];
      var normal := FillAttribute(mesh.normal, |vertex|, idx.normalIndex, attrs.normals, ZeroFloat3);
      var texcoord := FillAttribute(mesh.texcoord, |vertex|, idx.texcoordIndex, attrs.texcoords, ZeroFloat2);
      AddResult(mesh.(vertex := vertex, normal := normal, texcoord := texcoord), known[idx.vertexIndex := id], id)
  }

  /** The normal and texcoord arrays are each empty or exactly as long as the vertex array. */
  predicate AttributesAligned(m: TriangleMesh)
  {
    (|m.normal| == 0 || |m.normal| == |m.vertex|) && (|m.texcoord| == 0 || |m.texcoord| == |m.vertex|)
  }

  /** Every known vertex index maps to an id whose stored position is that vertex's position. */
  predicate KnownConsistent(known: map<int, int>, vertex: seq<Float3>, attrs: Attributes)
  {
    forall k :: k in known ==>
      0 <= k < |attrs.vertices| && 0 <= known[k] < |vertex| && vertex[known[k]] == attrs.vertices[k]
  }

  /** addVertex keeps the map consistent and returns an id whose position is the corner's position. */
  lemma AddVertexKeepsConsistent(mesh: TriangleMesh, known: map<int, int>, attrs: Attributes, idx: ObjIndex)
    requires IndexValid(attrs, idx)
    requires KnownConsistent(known, mesh.vertex, attrs)
    ensures var r := AddVertexSpec(mesh, known, attrs, idx);
      KnownConsistent(r.known, r.mesh.vertex, attrs) &&
      0 <= r.id < |r.mesh.vertex| && r.mesh.vertex[r.id] == attrs.vertices[idx.vertexIndex] &&
      |mesh.vertex| <= |r.mesh.vertex| <= |mesh.vertex| + 1 && r.mesh.vertex[..|mesh.vertex|] == mesh.vertex
  {
    var r := AddVertexSpec(mesh, known, attrs, idx);
    if idx.vertexIndex !in known {
      forall k | k in r.known
        ensures 0 <= k < |attrs.vertices| && 0 <= r.known[k] < |r.mesh.vertex| && r.mesh.vertex[r.known[k]] == attrs.vertices[k]
      {
        if k != idx.vertexIndex {
          assert r.mesh.vertex[known[k]] == mesh.vertex[known[k]];
        }
      }
    }
  }

  /** The push_back loop of addVertex. */
  method Pad<T>(s: seq<T>, n: nat, fill: T) returns (r: seq<T>)
    ensures r == PadTo(s, n, fill)
  {
    r := s;
    while |r| < n
      invariant |s| <= |r| && (|s| < n ==> |r| <= n) && (n <= |s| ==> |r| == |s|)
      invariant r == s + seq(|r| - |s|, _ => fill)
      decreases n - |r|
    {
      r := r + [fill];
    }
    if |s| < n {
      assert r == s + seq(n - |s|, _ => fill);
    } else {
      assert r == s;
    }
  }

  /** addVertex on values: the mesh and the map go in and come back out. */
  method AddVertex(mesh: TriangleMesh, known: map<int, int>, attrs: Attributes, idx: ObjIndex) returns (r: AddResult)
    requires IndexValid(attrs, idx)
    ensures r == AddVertexSpec(mesh, known, attrs, idx)
  {
    if idx.vertexIndex in known {
      return AddResult(mesh, known, known[idx.vertexIndex]);
    }
    var newID := |mesh.vertex|;
    var known' := known[idx.vertexIndex := newID];
    var vertex := mesh.vertex + [attrs.vertices[idx.vertexIndex]];
    var normal := mesh.normal;
    if idx.normalIndex >= 0 {
      normal := Pad(normal, |vertex|, attrs.normals[idx.normalIndex]);
    }
    var texcoord := mesh.texcoord;
    if idx.texcoordIndex >= 0 {
      texcoord := Pad(texcoord, |vertex|, attrs.texcoords[idx.texcoordIndex]);
    }
    if |texcoord| > 0 {
      texcoord := Resize(texcoord, |vertex|, ZeroFloat2);
    }
    if |normal| > 0 {
      normal := Resize(normal, |vertex|, ZeroFloat3);
    }
    r := AddResult(mesh.(vertex := vertex, normal := normal, texcoord := texcoord), known', newID);
  }

  // ----- loadTexture -----

  /** The pixel rows match the resolution. */
  predicate WellFormed(t: Texture)
  {
    0 <= t.width && |t.pixel| == t.height &&
    forall y :: 0 <= y < |t.pixel| ==> |t.pixel[y]| == t.width
  }

  /** Rows in reverse order: row y of the result is row height-1-y of the input. */
  function FlipRows(rows: seq<seq<uint32>>): (r: seq<seq<uint32>>)
    ensures |r| == |rows|
    ensures forall y :: 0 <= y < |rows| ==> r[y] == rows[|rows| - 1 - y]
  {
    seq(|rows|, y requires 0 <= y < |rows| => rows[|rows| - 1 - y])
  }

  /** The texture as stored: mirrored vertically. */
  function Mirrored(t: Texture): (m: Texture)
    ensures WellFormed(t) ==> WellFormed(m)
    ensures m.width == t.width && m.height == t.height
  {
    t.(pixel := FlipRows(t.pixel))
  }

  /** Flipping twice restores the image. */
  lemma FlipRowsInvolution(rows: seq<seq<uint32>>)
    ensures FlipRows(FlipRows(rows)) == rows
  {
  }

  /** The middle row of an odd-height image stays in place. */
  lemma FlipRowsKeepsMiddle(rows: seq<seq<uint32>>)
    requires |rows| % 2 == 1
    ensures FlipRows(rows)[|rows| / 2] == rows[|rows| / 2]
  {
  }

  /** The mirror loop of loadTexture: swaps row y with row height-1-y for every y below height/2. */
  method MirrorRows(img: array2<uint32>)
    modifies img
    ensures forall y, x :: 0 <= y < img.Length0 && 0 <= x < img.Length1 ==>
      img[y, x] == old(img[img.Length0 - 1 - y, x])
  {
    var h, w := img.Length0, img.Length1;
    var y := 0;
    while y < h / 2
      invariant 0 <= y <= h / 2
      invariant forall r, c :: 0 <= r < h && 0 <= c < w ==>
        img[r, c] == if r < y || h - 1 - y < r then old(img[h - 1 - r, c]) else old(img[r, c])
    {
      var x := 0;
      while x < w
        invariant 0 <= x <= w
        invariant forall r, c :: 0 <= r < h && 0 <= c < w ==>
          img[r, c] == if r < y || h - 1 - y < r || ((r == y || r == h - 1 - y) && c < x)
                       then old(img[h - 1 - r, c]) else old(img[r, c])
      {
        img[y, x], img[h - 1 - y, x] := img[h - 1 - y, x], img[y, x];
        x := x + 1;
      }
      y := y + 1;
    }
  }

  /** The rows of a two-dimensional array. */
  method ReadRows(img: array2<uint32>) returns (rows: seq<seq<uint32>>)
    ensures |rows| == img.Length0
    ensures forall y :: 0 <= y < |rows| ==> |rows[y]| == img.Length1
    ensures forall y, x :: 0 <= y < img.Length0 && 0 <= x < img.Length1 ==> rows[y][x] == img[y, x]
  {
    rows := seq(img.Length0, y requires 0 <= y < img.Length0 reads img =>
      seq(img.Length1, x requires 0 <= x < img.Length1 reads img => img[y, x]));
  }

  /** Backslashes turned into forward slashes. */
  function FixSeparators(s: string): (r: string)
    ensures |r| == |s|
    ensures forall i :: 0 <= i < |s| ==> r[i] == if s[i] == '\\' then '/' else s[i]
    ensures NoBackslash(r)
  {
    seq(|s|, i requires 0 <= i < |s| => if s[i] == '\\' then '/' else s[i])
  }

  predicate NoBackslash(s: string)
  {
    forall i :: 0 <= i < |s| ==> s[i] != '\\'
  }

  /** The path stb_image is asked to decode for a texture name. */
  function TexturePath(modelPath: string, inFileName: string): string
  {
    modelPath + "/" + FixSeparators(inFileName)
  }

  /**
   * loadTexture: an empty name gives -1; a cached name gives its cached id;
   * otherwise the image is decoded (`decode` stands for stbi_load), mirrored
   * and appended, and the new id, or -1 when decoding failed, is cached.
   */
  method LoadTexture(textures: seq<Texture>, known: map<string, int>, inFileName: string, modelPath: string,
                     decode: string -> Option<Texture>)
    returns (textures': seq<Texture>, known': map<string, int>, id: int)
    requires forall p :: decode(p).Some? ==> WellFormed(decode(p).value)
    ensures inFileName == "" ==> id == -1 && textures' == textures && known' == known
    ensures inFileName != "" && inFileName in known ==>
      id == known[inFileName] && textures' == textures && known' == known
    ensures inFileName != "" && inFileName !in known ==>
      var image := decode(TexturePath(modelPath, inFileName));
      known' == known[inFileName := id] &&
      (image.None? ==> id == -1 && textures' == textures) &&
      (image.Some? ==> id == |textures| && textures' == textures + [Mirrored(image.value)])
  {
    if inFileName == "" {
      return textures, known, -1;
    }
    if inFileName in known {
      return textures, known, known[inFileName];
    }
    var fileName := inFileName;
    for i := 0 to |fileName|
      invariant |fileName| == |inFileName|
      invariant forall j :: 0 <= j < |fileName| ==>
        fileName[j] == if j < i && inFileName[j] == '\\' then '/' else inFileName[j]
    {
      if fileName[i] == '\\' {
        fileName := fileName[i := '/'];
      }
    }
    assert fileName == FixSeparators(inFileName);
    fileName := modelPath + "/" + fileName;
    var image := decode(fileName);
    id := -1;
    textures' := textures;
    if image.Some? {
      id := |textures|;
      var t := image.value;
      var img := new uint32[|t.pixel|, t.width]((y, x) =>
        if 0 <= y < |t.pixel| && 0 <= x < |t.pixel[y]| then t.pixel[y][x] else 0);
      MirrorRows(img);
      var rows := ReadRows(img);
      assert rows == FlipRows(t.pixel) by {
        forall y | 0 <= y < |rows|
          ensures rows[y] == FlipRows(t.pixel)[y]
        {
          assert forall x :: 0 <= x < |rows[y]| ==> rows[y][x] == t.pixel[|t.pixel| - 1 - y][x];
        }
      }
      textures' := textures + [Texture(rows, t.width, t.height)];
    }
    known' := known[inFileName := id];
  }

  // ----- loadPLY and the Object_t constructor -----

  /** loadPLY: the mesh read from the file, given the one default material and no texture. */
  function LoadPlyModel(mesh: TriangleMesh): (m: Model)
    ensures |m.meshes| == 1 && |m.materials| == 1 && m.textures == []
    ensures 0 <= m.meshes[0].materialID < |m.materials| && m.materials[m.meshes[0].materialID] == DefaultMaterial
    ensures m.meshes[0].materialTextureID == -1
    ensures m.meshes[0].vertex == mesh.vertex && m.meshes[0].index == mesh.index && m.meshes[0].name == mesh.name
  {
    var matID := 0;
    Model([DefaultMaterial], [mesh.(materialID := matID, materialTextureID := -1)], [])
  }

  datatype Loader = ObjLoader | PlyLoader | Unsupported(extension: string)

  /** The Object_t constructor's dispatch: ".obj" and ".ply" (exactly, case-sensitive); anything else is rejected. */
  function LoaderFor(filename: Path): (l: Loader)
    ensures l.ObjLoader? <==> Extension(filename) == ".obj"
    ensures l.PlyLoader? <==> Extension(filename) == ".ply"
    ensures l.Unsupported? ==> l.extension == Extension(filename)
  {
    var ext := Extension(filename);
    if ext == ".obj" then ObjLoader
    else if ext == ".ply" then PlyLoader
    else Unsupported(ext)
  }

  /** A path whose extension is replaced by ".ply" is read by the PLY loader, and by ".obj" by the OBJ loader. */
  lemma LoaderForReplacedExtension(p: Path)
    requires Stem(p) != ""
    ensures LoaderFor(ReplaceExtension(p, ".ply")) == PlyLoader
    ensures LoaderFor(ReplaceExtension(p, ".obj")) == ObjLoader
  {
    assert ProperExtension(".ply") && ProperExtension(".obj");
    ReplaceExtensionResult(p, ".ply");
    ReplaceExtensionResult(p, ".obj");
  }
}
