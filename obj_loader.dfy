/**
 * loadOBJ: turns what tinyobj parsed (attributes, shapes, materials) into a
 * Model with one triangle mesh per shape and material. Face material ids are
 * normalised, a default material is supplied when the file has none, vertices
 * are de-duplicated per mesh, and diffuse textures are loaded through the
 * texture cache.
 */
module ObjLoader {
  import opened Numeric
  import opened Wrappers
  import opened MeshTypes
  import opened Paths
  import opened ObjectLoading

  /** A tinyobj shape: three corners per face and one material id per face. */
  datatype ObjShape = ObjShape(name: string, indices: seq<ObjIndex>, materialIds: seq<int>)

  /** The fields of a tinyobj material the loader reads. */
  datatype ObjMaterial = ObjMaterial(
    name: string,
    ambient: Float3,
    diffuse: Float3,
    specular: Float3,
    emission: Float3,
    shininess: real,
    dissolve: real,
    illum: int,
    diffuseTexname: string)

  datatype ObjData = ObjData(attrs: Attributes, shapes: seq<ObjShape>, materials: seq<ObjMaterial>)

  /**
   * At least three corners per face, each addressing existing attributes.
   * tinyobj runs without triangulation, so a polygon face contributes more
   * than three corners while face f is still read at 3f, 3f+1 and 3f+2.
   */
  predicate ShapeValid(attrs: Attributes, shape: ObjShape)
  {
    3 * |shape.materialIds| <= |shape.indices| &&
    forall i :: 0 <= i < |shape.indices| ==> IndexValid(attrs, shape.indices[i])
  }

  // ----- materials -----

  /** The material loadOBJ adds when the file defines none. */
  const DefaultObjMaterial := ObjMaterial("default", Float3(1.0, 1.0, 1.0), Float3(1.0, 1.0, 1.0),
    Float3(0.5, 0.5, 0.5), Float3(0.0, 0.0, 0.0), 250.0, 1.0, 2, "")

  function WithDefaultMaterial(materials: seq<ObjMaterial>): (r: seq<ObjMaterial>)
    ensures r != []
    ensures materials != [] ==> r == materials
  {
    if materials == [] then [DefaultObjMaterial] else materials
  }

  /**
   * The Material_t built from a tinyobj material: the colour arrays are
   * always copied; shininess, dissolve and the illumination model only when
   * non-zero, so a zero keeps Material_t's default.
   */
  function ConvertMaterial(m: ObjMaterial): (r: Material)
    ensures r.ambient == m.ambient && r.diffuse == m.diffuse && r.specular == m.specular && r.emission == m.emission
    ensures m.shininess == 0.0 ==> r.shininess == DefaultMaterial.shininess
    ensures m.dissolve == 0.0 ==> r.dissolve == DefaultMaterial.dissolve
    ensures m.illum == 0 ==> r.illuminationModel == DefaultMaterial.illuminationModel
  {
    Material(m.ambient, m.diffuse, m.specular, m.emission,
      if m.shininess != 0.0 then m.shininess else DefaultMaterial.shininess,
      if m.dissolve != 0.0 then m.dissolve else DefaultMaterial.dissolve,
      if m.illum != 0 then m.illum else DefaultMaterial.illuminationModel)
  }

  /** The substitute material converts to the default Material_t. */
  lemma DefaultMaterialConverts()
    ensures ConvertMaterial(DefaultObjMaterial) == DefaultMaterial
  {
  }

  /** A name the loader accepts: 1 to 999 characters. */
  predicate AcceptedName(s: string)
  {
    0 < |s| < 1000
  }

  // ----- face material ids -----

  /** A face material id that is negative or past the material list becomes 0, the default. */
  function NormalizeId(id: int, count: int): (r: int)
    ensures 0 <= id < count ==> r == id
    ensures 1 <= count ==> 0 <= r < count
  {
    if id < 0 || id >= count then 0 else id
  }

  /** The normalising loop over a shape's face material ids, gathering the set of ids in use. */
  method NormalizeMaterialIds(ids: seq<int>, count: int) returns (normalized: seq<int>, used: set<int>)
    ensures |normalized| == |ids|
    ensures forall i :: 0 <= i < |ids| ==> normalized[i] == NormalizeId(ids[i], count)
    ensures forall m :: m in used <==> exists i :: 0 <= i < |ids| && normalized[i] == m
  {
    normalized := [];
    used := {};
    for i := 0 to |ids|
      invariant |normalized| == i
      invariant forall j :: 0 <= j < i ==> normalized[j] == NormalizeId(ids[j], count)
      invariant forall m :: m in used <==> exists j :: 0 <= j < i && normalized[j] == m
    {
      var id := ids[i];
      if id < 0 || id >= count {
        id := 0;
      }
      normalized := normalized + [id];
      used := used + {id};
      assert normalized[i] == id;
    }
  }

  // ----- building one mesh -----

  /** A mesh under construction and its known-vertex map. */
  datatype Built = Built(mesh: TriangleMesh, known: map<int, int>)

  /** Nothing built yet. */
  const Fresh := Built(EmptyMesh, map[])

  /** A face of vertex ids, each converted to unsigned as make_uint3 does. */
  function Face(a: int, b: int, c: int): (f: UInt3)
    ensures 0 <= a < UINT32_COUNT ==> f.x == a
    ensures 0 <= b < UINT32_COUNT ==> f.y == b
    ensures 0 <= c < UINT32_COUNT ==> f.z == c
  {
    UInt3(a % UINT32_COUNT, b % UINT32_COUNT, c % UINT32_COUNT)
  }

  /**
   * The mesh for material m after the first n faces of the shape, starting
   * from `start`: every face of that material adds its three corners through
   * addVertex, left to right, and then its id triple.
   */
  function BuildFaces(shape: ObjShape, attrs: Attributes, m: int, n: nat, start: Built): (b: Built)
    requires ShapeValid(attrs, shape) && n <= |shape.materialIds|
    decreases n
  {
    if n == 0 then start
    else
      var prev := BuildFaces(shape, attrs, m, n - 1, start);
      if shape.materialIds[n - 1] != m then prev else AddFace(prev, shape, attrs, n - 1)
  }

  /** Face f's three corners go through addVertex, left to right, then its id triple is appended. */
  function AddFace(prev: Built, shape: ObjShape, attrs: Attributes, f: nat): (r: Built)
    requires ShapeValid(attrs, shape) && f < |shape.materialIds|
  {
    var a := AddVertexSpec(prev.mesh, prev.known, attrs, shape.indices[3 * f]);
    var b := AddVertexSpec(a.mesh, a.known, attrs, shape.indices[3 * f + 1]);
    var c := AddVertexSpec(b.mesh, b.known, attrs, shape.indices[3 * f + 2]);
    Built(c.mesh.(index := c.mesh.index + [Face(a.id, b.id, c.id)]), c.known)
  }

  /** The ids, in order, of the first n faces that carry material m. */
  function FacesWith(shape: ObjShape, m: int, n: nat): (fs: seq<nat>)
    requires n <= |shape.materialIds|
    ensures forall i :: 0 <= i < |fs| ==> fs[i] < n && shape.materialIds[fs[i]] == m
    decreases n
  {
    if n == 0 then []
    else FacesWith(shape, m, n - 1) + (if shape.materialIds[n - 1] == m then [n - 1] else [])
  }

  /** Face `face` of the mesh has the positions of source face f's three corners. */
  predicate FaceMatches(mesh: TriangleMesh, face: UInt3, attrs: Attributes, shape: ObjShape, f: nat)
    requires ShapeValid(attrs, shape) && f < |shape.materialIds|
  {
    face.x < |mesh.vertex| && face.y < |mesh.vertex| && face.z < |mesh.vertex| &&
    mesh.vertex[face.x] == attrs.vertices[shape.indices[3 * f].vertexIndex] &&
    mesh.vertex[face.y] == attrs.vertices[shape.indices[3 * f + 1].vertexIndex] &&
    mesh.vertex[face.z] == attrs.vertices[shape.indices[3 * f + 2].vertexIndex]
  }

  /** The invariant of a mesh built from Fresh over the first n faces. */
  predicate BuiltCorrectly(b: Built, shape: ObjShape, attrs: Attributes, m: int, n: nat)
    requires ShapeValid(attrs, shape) && n <= |shape.materialIds|
  {
    var fs := FacesWith(shape, m, n);
    KnownConsistent(b.known, b.mesh.vertex, attrs) &&
    |b.mesh.vertex| <= 3 * n && AttributesAligned(b.mesh) &&
    b.mesh.materialID == -1 && b.mesh.materialTextureID == -1 &&
    FacesMatch(b.mesh, b.mesh.index, fs, attrs, shape)
  }

  /** Each face of `index` matches the source face at the same place in `fs`. */
  predicate FacesMatch(mesh: TriangleMesh, index: seq<UInt3>, fs: seq<nat>, attrs: Attributes, shape: ObjShape)
    requires ShapeValid(attrs, shape)
    requires forall i :: 0 <= i < |fs| ==> fs[i] < |shape.materialIds|
  {
    |index| == |fs| &&
    forall i :: 0 <= i < |fs| ==> FaceMatches(mesh, index[i], attrs, shape, fs[i])
  }

  /** Appending vertices and then a matching face keeps all faces matching. */
  lemma FacesMatchAppend(mesh: TriangleMesh, mesh': TriangleMesh, index: seq<UInt3>, fs: seq<nat>,
                         face: UInt3, f: nat, attrs: Attributes, shape: ObjShape)
    requires ShapeValid(attrs, shape) && f < |shape.materialIds|
    requires forall i :: 0 <= i < |fs| ==> fs[i] < |shape.materialIds|
    requires |mesh.vertex| <= |mesh'.vertex| && mesh'.vertex[..|mesh.vertex|] == mesh.vertex
    requires FacesMatch(mesh, index, fs, attrs, shape) && FaceMatches(mesh', face, attrs, shape, f)
    ensures FacesMatch(mesh', index + [face], fs + [f], attrs, shape)
  {
    var index', fs' := index + [face], fs + [f];
    forall i | 0 <= i < |fs'|
      ensures FaceMatches(mesh', index'[i], attrs, shape, fs'[i])
    {
      if i < |fs| {
        FaceMatchesExtend(mesh, mesh', index[i], attrs, shape, fs[i]);
      }
    }
  }

  /**
   * Built from a fresh map, the mesh for material m has one face per face of
   * that material, in order, each pointing at vertices with that face's
   * positions; so every index is in range.
   */
  lemma {:induction false} BuildFacesCorrect(shape: ObjShape, attrs: Attributes, m: int, n: nat)
    requires ShapeValid(attrs, shape) && n <= |shape.materialIds|
    requires 3 * |shape.materialIds| < UINT32_COUNT
    ensures BuiltCorrectly(BuildFaces(shape, attrs, m, n, Fresh), shape, attrs, m, n)
    ensures IndicesInRange(BuildFaces(shape, attrs, m, n, Fresh).mesh)
    decreases n
  {
    var b := BuildFaces(shape, attrs, m, n, Fresh);
    if n > 0 {
      BuildFacesCorrect(shape, attrs, m, n - 1);
      if shape.materialIds[n - 1] == m {
        BuildStep(shape, attrs, m, n);
      }
    }
    var fs := FacesWith(shape, m, n);
    forall i | 0 <= i < |b.mesh.index|
      ensures b.mesh.index[i].x < |b.mesh.vertex| && b.mesh.index[i].y < |b.mesh.vertex| && b.mesh.index[i].z < |b.mesh.vertex|
    {
      assert FaceMatches(b.mesh, b.mesh.index[i], attrs, shape, fs[i]);
    }
  }

  /** Three addVertex calls in a row: the vertex array grows by at most three, keeps its prefix, and each id holds its corner's position. */
  lemma AddThree(mesh: TriangleMesh, known: map<int, int>, attrs: Attributes, i0: ObjIndex, i1: ObjIndex, i2: ObjIndex)
    requires IndexValid(attrs, i0) && IndexValid(attrs, i1) && IndexValid(attrs, i2)
    requires KnownConsistent(known, mesh.vertex, attrs) && AttributesAligned(mesh)
    ensures var a := AddVertexSpec(mesh, known, attrs, i0);
      var b := AddVertexSpec(a.mesh, a.known, attrs, i1);
      var c := AddVertexSpec(b.mesh, b.known, attrs, i2);
      var v := c.mesh.vertex;
      KnownConsistent(c.known, v, attrs) && AttributesAligned(c.mesh) &&
      c.mesh.index == mesh.index && |mesh.vertex| <= |v| <= |mesh.vertex| + 3 &&
      c.mesh.materialID == mesh.materialID && c.mesh.materialTextureID == mesh.materialTextureID &&
      v[..|mesh.vertex|] == mesh.vertex &&
      0 <= a.id < |v| && v[a.id] == attrs.vertices[i0.vertexIndex] &&
      0 <= b.id < |v| && v[b.id] == attrs.vertices[i1.vertexIndex] &&
      0 <= c.id < |v| && v[c.id] == attrs.vertices[i2.vertexIndex]
  {
    var a := AddVertexSpec(mesh, known, attrs, i0);
    AddVertexKeepsConsistent(mesh, known, attrs, i0);
    var b := AddVertexSpec(a.mesh, a.known, attrs, i1);
    AddVertexKeepsConsistent(a.mesh, a.known, attrs, i1);
    var c := AddVertexSpec(b.mesh, b.known, attrs, i2);
    AddVertexKeepsConsistent(b.mesh, b.known, attrs, i2);
    var v := c.mesh.vertex;
    assert v[..|b.mesh.vertex|] == b.mesh.vertex;
    assert v[..|a.mesh.vertex|] == a.mesh.vertex by {
      assert v[..|a.mesh.vertex|] == v[..|b.mesh.vertex|][..|a.mesh.vertex|];
    }
    assert v[..|mesh.vertex|] == mesh.vertex by {
      assert v[..|mesh.vertex|] == v[..|a.mesh.vertex|][..|mesh.vertex|];
    }
    assert v[a.id] == a.mesh.vertex[a.id] by {
      assert v[a.id] == v[..|a.mesh.vertex|][a.id];
    }
    assert v[b.id] == b.mesh.vertex[b.id] by {
      assert v[b.id] == v[..|b.mesh.vertex|][b.id];
    }
  }

  /** A face that matches keeps matching once more vertices are appended. */
  lemma FaceMatchesExtend(mesh: TriangleMesh, mesh': TriangleMesh, face: UInt3, attrs: Attributes, shape: ObjShape, f: nat)
    requires ShapeValid(attrs, shape) && f < |shape.materialIds|
    requires |mesh.vertex| <= |mesh'.vertex| && mesh'.vertex[..|mesh.vertex|] == mesh.vertex
    requires FaceMatches(mesh, face, attrs, shape, f)
    ensures FaceMatches(mesh', face, attrs, shape, f)
  {
    var v := mesh'.vertex;
    assert v[face.x] == v[..|mesh.vertex|][face.x];
    assert v[face.y] == v[..|mesh.vertex|][face.y];
    assert v[face.z] == v[..|mesh.vertex|][face.z];
  }

  /** One face of material m keeps the invariant. */
  lemma BuildStep(shape: ObjShape, attrs: Attributes, m: int, n: nat)
    requires ShapeValid(attrs, shape) && 0 < n <= |shape.materialIds|
    requires 3 * |shape.materialIds| < UINT32_COUNT
    requires shape.materialIds[n - 1] == m
    requires BuiltCorrectly(BuildFaces(shape, attrs, m, n - 1, Fresh), shape, attrs, m, n - 1)
    ensures BuiltCorrectly(BuildFaces(shape, attrs, m, n, Fresh), shape, attrs, m, n)
  {
    var prev := BuildFaces(shape, attrs, m, n - 1, Fresh);
    FacesWithLast(shape, m, n);
    AddFaceKeepsBuilt(prev, shape, attrs, m, n);
    assert BuildFaces(shape, attrs, m, n, Fresh) == AddFace(prev, shape, attrs, n - 1);
  }

  lemma FacesWithLast(shape: ObjShape, m: int, n: nat)
    requires 0 < n <= |shape.materialIds| && shape.materialIds[n - 1] == m
    ensures FacesWith(shape, m, n) == FacesWith(shape, m, n - 1) + [n - 1]
  {
  }

  /** Adding face n - 1, which has material m, to a mesh built correctly from the first n - 1 faces. */
  lemma AddFaceKeepsBuilt(prev: Built, shape: ObjShape, attrs: Attributes, m: int, n: nat)
    requires ShapeValid(attrs, shape) && 0 < n <= |shape.materialIds|
    requires 3 * |shape.materialIds| < UINT32_COUNT
    requires FacesWith(shape, m, n) == FacesWith(shape, m, n - 1) + [n - 1]
    requires BuiltCorrectly(prev, shape, attrs, m, n - 1)
    ensures BuiltCorrectly(AddFace(prev, shape, attrs, n - 1), shape, attrs, m, n)
  {
    var f := n - 1;
    var r := AddFace(prev, shape, attrs, f);
    var fsPrev: seq<nat> := FacesWith(shape, m, f);
    var fs: seq<nat> := fsPrev + [f];
    AddFaceFacts(prev, shape, attrs, f);
    var face := r.mesh.index[|prev.mesh.index|];
    assert r.mesh.index == prev.mesh.index + [face];
    FacesMatchAppend(prev.mesh, r.mesh, prev.mesh.index, fsPrev, face, f, attrs, shape);
  }

  /** What AddFace does to a consistent mesh: the AddThree facts, with the new face matching face f. */
  lemma AddFaceFacts(prev: Built, shape: ObjShape, attrs: Attributes, f: nat)
    requires ShapeValid(attrs, shape) && f < |shape.materialIds|
    requires KnownConsistent(prev.known, prev.mesh.vertex, attrs) && AttributesAligned(prev.mesh)
    requires |prev.mesh.vertex| + 3 <= UINT32_COUNT
    ensures var r := AddFace(prev, shape, attrs, f);
      KnownConsistent(r.known, r.mesh.vertex, attrs) && AttributesAligned(r.mesh) &&
      |prev.mesh.vertex| <= |r.mesh.vertex| <= |prev.mesh.vertex| + 3 &&
      r.mesh.vertex[..|prev.mesh.vertex|] == prev.mesh.vertex &&
      r.mesh.materialID == prev.mesh.materialID && r.mesh.materialTextureID == prev.mesh.materialTextureID &&
      |r.mesh.index| == |prev.mesh.index| + 1 && r.mesh.index[..|prev.mesh.index|] == prev.mesh.index &&
      FaceMatches(r.mesh, r.mesh.index[|prev.mesh.index|], attrs, shape, f)
  {
    var i0, i1, i2 := shape.indices[3 * f], shape.indices[3 * f + 1], shape.indices[3 * f + 2];
    AddThree(prev.mesh, prev.known, attrs, i0, i1, i2);
    var a := AddVertexSpec(prev.mesh, prev.known, attrs, i0);
    var b := AddVertexSpec(a.mesh, a.known, attrs, i1);
    var c := AddVertexSpec(b.mesh, b.known, attrs, i2);
    var r := AddFace(prev, shape, attrs, f);
    assert r.mesh.index == prev.mesh.index + [Face(a.id, b.id, c.id)];
  }

  /** The per-material face loop of loadOBJ, with its own known-vertex map. */
  method BuildMesh(shape: ObjShape, attrs: Attributes, m: int) returns (mesh: TriangleMesh)
    requires ShapeValid(attrs, shape)
    ensures mesh == BuildFaces(shape, attrs, m, |shape.materialIds|, Fresh).mesh
  {
    var known: map<int, int> := map[];
    mesh := EmptyMesh;
    for faceID := 0 to |shape.materialIds|
      invariant Built(mesh, known) == BuildFaces(shape, attrs, m, faceID, Fresh)
    {
      if shape.materialIds[faceID] != m {
        continue;
      }
      var a := AddVertex(mesh, known, attrs, shape.indices[3 * faceID]);
      var b := AddVertex(a.mesh, a.known, attrs, shape.indices[3 * faceID + 1]);
      var c := AddVertex(b.mesh, b.known, attrs, shape.indices[3 * faceID + 2]);
      mesh := c.mesh.(index := c.mesh.index + [Face(a.id, b.id, c.id)]);
      known := c.known;
    }
  }

  // ----- the map shared across a shape's materials, as loadOBJ declares it -----

  /**
   * The meshes of one shape when, as in loadOBJ, a single known-vertex map
   * is kept across all of the shape's materials: each mesh starts empty but
   * inherits the ids recorded while building the previous ones.
   */
  function ShapeMeshesSharedMap(shape: ObjShape, attrs: Attributes, ids: seq<int>, known: map<int, int>): (ms: seq<TriangleMesh>)
    requires ShapeValid(attrs, shape)
    ensures |ms| == |ids|
  {
    if ids == [] then []
    else
      var b := BuildFaces(shape, attrs, ids[0], |shape.materialIds|, Built(EmptyMesh, known));
      [b.mesh] + ShapeMeshesSharedMap(shape, attrs, ids[1..], b.known)
  }

  /** A shape of two faces that share two vertices but use different materials. */
  const P0 := Float3(0.0, 0.0, 0.0)
  const P1 := Float3(1.0, 0.0, 0.0)
  const P2 := Float3(0.0, 1.0, 0.0)
  const P3 := Float3(0.0, 0.0, 1.0)

  function Corner(v: int): ObjIndex
  {
    ObjIndex(v, -1, -1)
  }

  const TwoMaterialAttrs := Attributes([P0, P1, P2, P3], [], [])
  const TwoMaterialShape := ObjShape("two", [Corner(0), Corner(1), Corner(2), Corner(0), Corner(1), Corner(3)], [0, 1])

  /**
   * With the shared map, the second material's mesh gets face (0, 1, 0) over
   * a single stored vertex: ids 0 and 1 were handed out for the first mesh,
   * so the face points outside the second mesh's vertex array.
   */
  lemma SharedMapBreaksSecondMesh()
    ensures var ms := ShapeMeshesSharedMap(TwoMaterialShape, TwoMaterialAttrs, [0, 1], map[]);
      ms[1].vertex == [P3] && ms[1].index == [UInt3(0, 1, 0)] && !IndicesInRange(ms[1])
  {
    var shape, attrs := TwoMaterialShape, TwoMaterialAttrs;
    assert ShapeValid(attrs, shape);
    assert BuildFaces(shape, attrs, 0, 0, Fresh) == Fresh;
    var first := AddFace(Fresh, shape, attrs, 0);
    var a0 := AddVertexSpec(EmptyMesh, map[], attrs, Corner(0));
    var a1 := AddVertexSpec(a0.mesh, a0.known, attrs, Corner(1));
    var a2 := AddVertexSpec(a1.mesh, a1.known, attrs, Corner(2));
    assert first.known == a2.known == map[0 := 0, 1 := 1, 2 := 2];
    assert BuildFaces(shape, attrs, 0, 1, Fresh) == first;
    assert BuildFaces(shape, attrs, 0, 2, Fresh) == first;
    var start := Built(EmptyMesh, first.known);
    assert BuildFaces(shape, attrs, 1, 1, start) == start;
    var second := AddFace(start, shape, attrs, 1);
    assert BuildFaces(shape, attrs, 1, 2, start) == second;
    var b0 := AddVertexSpec(EmptyMesh, first.known, attrs, Corner(0));
    var b1 := AddVertexSpec(b0.mesh, b0.known, attrs, Corner(1));
    var b2 := AddVertexSpec(b1.mesh, b1.known, attrs, Corner(3));
    assert b0.id == 0 && b1.id == 1 && b2.id == 0 && b2.mesh.vertex == [P3];
    assert second.mesh.index == [UInt3(0, 1, 0)];
    assert second.mesh.vertex == [P3];
    assert !IndicesInRange(second.mesh) by {
      assert second.mesh.index[0].y == 1 && |second.mesh.vertex| == 1;
    }
    var ms := ShapeMeshesSharedMap(shape, attrs, [0, 1], map[]);
    assert [0, 1][1..] == [1];
    assert ms == [first.mesh] + ShapeMeshesSharedMap(shape, attrs, [1], first.known);
    assert ShapeMeshesSharedMap(shape, attrs, [1], first.known)[0] == second.mesh;
  }

  /** Built with its own map, the same second mesh stores all three corners and its face is in range. */
  lemma OwnMapBuildsSecondMesh()
    ensures var b := BuildFaces(TwoMaterialShape, TwoMaterialAttrs, 1, 2, Fresh);
      b.mesh.vertex == [P0, P1, P3] && b.mesh.index == [UInt3(0, 1, 2)] && IndicesInRange(b.mesh)
  {
    var shape, attrs := TwoMaterialShape, TwoMaterialAttrs;
    assert ShapeValid(attrs, shape);
    var s1 := BuildFaces(shape, attrs, 1, 1, Fresh);
    assert s1 == Fresh;
    var b0 := AddVertexSpec(EmptyMesh, map[], attrs, Corner(0));
    var b1 := AddVertexSpec(b0.mesh, b0.known, attrs, Corner(1));
    var b2 := AddVertexSpec(b1.mesh, b1.known, attrs, Corner(3));
    assert b2.mesh.vertex == [P0, P1, P3];
  }

  // ----- loadOBJ -----

  /**
   * A mesh loadOBJ keeps: it has vertices, its faces are in range, its
   * attribute arrays are aligned, and its material and texture ids are -1 or
   * valid, the texture id being -1 whenever the material id is.
   */
  predicate MeshWellFormed(mesh: TriangleMesh, materialCount: int, textureCount: int)
  {
    mesh.vertex != [] && IndicesInRange(mesh) && AttributesAligned(mesh) &&
    -1 <= mesh.materialID < materialCount &&
    -1 <= mesh.materialTextureID < textureCount &&
    (mesh.materialID == -1 ==> mesh.materialTextureID == -1)
  }

  /** What every Model loadOBJ returns satisfies, for a material list of the given length. */
  predicate ModelWellFormed(model: Model, materialCount: int)
  {
    (forall t :: t in model.textures ==> WellFormed(t)) &&
    forall mesh :: mesh in model.meshes ==> MeshWellFormed(mesh, materialCount, |model.textures|)
  }

  /** The texture cache only holds ids of loaded textures, or -1. */
  predicate CacheValid(known: map<string, int>, textures: seq<Texture>)
  {
    forall k :: k in known ==> -1 <= known[k] < |textures|
  }

  /** The meshes and materials loadOBJ has appended so far, texture ids aside. */
  datatype Loaded = Loaded(meshes: seq<TriangleMesh>, materials: seq<Material>)

  /** A mesh with its texture id blanked: what the model determines without the texture cache. */
  function Untextured(mesh: TriangleMesh): TriangleMesh
  {
    mesh.(materialTextureID := -1)
  }

  function UntexturedAll(meshes: seq<TriangleMesh>): (r: seq<TriangleMesh>)
    ensures |r| == |meshes|
    ensures forall i :: 0 <= i < |meshes| ==> r[i] == Untextured(meshes[i])
  {
    seq(|meshes|, i requires 0 <= i < |meshes| => Untextured(meshes[i]))
  }

  /** The model's meshes, texture ids aside, and its materials. */
  function Outline(model: Model): Loaded
  {
    Loaded(UntexturedAll(model.meshes), model.materials)
  }

  /**
   * One iteration of the material loop, as a value: the mesh of material m
   * built with its own vertex map is kept when it has vertices, carrying m
   * (or -1 when the material's name is not accepted) and the shape's name;
   * an accepted material is converted and appended whether or not its mesh
   * is kept.
   */
  function MaterialStep(acc: Loaded, shape: ObjShape, attrs: Attributes, materials: seq<ObjMaterial>, m: nat): (r: Loaded)
    requires ShapeValid(attrs, shape) && m < |materials|
    ensures |acc.meshes| <= |r.meshes| <= |acc.meshes| + 1 && r.meshes[..|acc.meshes|] == acc.meshes
    ensures forall i :: |acc.meshes| <= i < |r.meshes| ==> r.meshes[i].vertex != [] && r.meshes[i].name == shape.name
    ensures |acc.materials| <= |r.materials| <= |acc.materials| + 1 && r.materials[..|acc.materials|] == acc.materials
  {
    var built := BuildFaces(shape, attrs, m, |shape.materialIds|, Fresh).mesh;
    var accepted := AcceptedName(materials[m].name);
    Loaded(
      acc.meshes + (if built.vertex == [] then []
                    else [built.(materialID := if accepted then m else -1, name := shape.name)]),
      acc.materials + (if accepted then [ConvertMaterial(materials[m])] else []))
  }

  /** Some face of the shape carries material m. */
  predicate UsesMaterial(shape: ObjShape, m: int)
  {
    exists i :: 0 <= i < |shape.materialIds| && shape.materialIds[i] == m
  }

  /** The material loop of one shape over ids 0..k-1, visiting only the ids the shape uses. */
  function ShapeLoad(acc: Loaded, shape: ObjShape, attrs: Attributes, materials: seq<ObjMaterial>, k: nat): (r: Loaded)
    requires ShapeValid(attrs, shape) && k <= |materials|
    ensures |acc.meshes| <= |r.meshes| <= |acc.meshes| + k && r.meshes[..|acc.meshes|] == acc.meshes
    ensures forall i :: |acc.meshes| <= i < |r.meshes| ==> r.meshes[i].vertex != [] && r.meshes[i].name == shape.name
    ensures |acc.materials| <= |r.materials| <= |acc.materials| + k && r.materials[..|acc.materials|] == acc.materials
    decreases k
  {
    if k == 0 then acc
    else
      var prev := ShapeLoad(acc, shape, attrs, materials, k - 1);
      if UsesMaterial(shape, k - 1) then MaterialStep(prev, shape, attrs, materials, k - 1) else prev
  }

  /** The shape with every face material id normalised against a list of `count` materials. */
  function Normalized(shape: ObjShape, count: int): (r: ObjShape)
    ensures r.name == shape.name && r.indices == shape.indices && |r.materialIds| == |shape.materialIds|
    ensures 1 <= count ==> forall i :: 0 <= i < |r.materialIds| ==> 0 <= r.materialIds[i] < count
  {
    shape.(materialIds := seq(|shape.materialIds|, i requires 0 <= i < |shape.materialIds| => NormalizeId(shape.materialIds[i], count)))
  }

  /** The meshes and materials of the first n shapes: each normalised, then its material loop. */
  function LoadShapes(shapes: seq<ObjShape>, attrs: Attributes, materials: seq<ObjMaterial>, n: nat): (r: Loaded)
    requires n <= |shapes| && forall s :: s in shapes ==> ShapeValid(attrs, s)
    ensures forall mesh :: mesh in r.meshes ==> mesh.vertex != []
    decreases n
  {
    if n == 0 then Loaded([], [])
    else
      var shape := Normalized(shapes[n - 1], |materials|);
      assert ShapeValid(attrs, shapes[n - 1]);
      ShapeLoad(LoadShapes(shapes, attrs, materials, n - 1), shape, attrs, materials, |materials|)
  }

  /**
   * One iteration of loadOBJ's material loop: builds the mesh of material m,
   * attaches the converted material and its diffuse texture when the
   * material's name is accepted (marks it -1 otherwise), names it after the
   * shape, and keeps it only when it has vertices.
   */
  method AddMaterialMesh(model: Model, knownTextures: map<string, int>, shape: ObjShape, attrs: Attributes,
                         m: int, materials: seq<ObjMaterial>, modelDir: string, decode: string -> Option<Texture>)
    returns (model': Model, knownTextures': map<string, int>)
    requires ShapeValid(attrs, shape) && 3 * |shape.materialIds| < UINT32_COUNT
    requires 0 <= m < |materials|
    requires forall p :: decode(p).Some? ==> WellFormed(decode(p).value)
    requires ModelWellFormed(model, |materials|) && CacheValid(knownTextures, model.textures)
    ensures ModelWellFormed(model', |materials|) && CacheValid(knownTextures', model'.textures)
    ensures |model.meshes| <= |model'.meshes| <= |model.meshes| + 1 && model'.meshes[..|model.meshes|] == model.meshes
    ensures |model.textures| <= |model'.textures| && model'.textures[..|model.textures|] == model.textures
    ensures Outline(model') == MaterialStep(Outline(model), shape, attrs, materials, m)
  {
    var mesh := BuildMesh(shape, attrs, m);
    BuildFacesCorrect(shape, attrs, m, |shape.materialIds|);
    var textures, materialList := model.textures, model.materials;
    knownTextures' := knownTextures;
    var mat := materials[m];
    if 0 < |mat.name| < 1000 {
      var material := ConvertMaterial(mat);
      var tid;
      textures, knownTextures', tid := LoadDiffuseTexture(textures, knownTextures', mat.diffuseTexname, modelDir, decode);
      mesh := mesh.(materialTextureID := tid);
      mesh := mesh.(materialID := m);
      materialList := materialList + [material];
    } else {
      mesh := mesh.(materialID := -1, materialTextureID := -1);
    }
    mesh := mesh.(name := shape.name);
    var meshes := model.meshes;
    if mesh.vertex != [] {
      assert MeshWellFormed(mesh, |materials|, |textures|);
      meshes := meshes + [mesh];
      assert meshes[..|model.meshes|] == model.meshes;
    }
    model' := Model(materialList, meshes, textures);
    assert UntexturedAll(meshes) == UntexturedAll(model.meshes) + (if mesh.vertex == [] then [] else [Untextured(mesh)]);
    assert ModelWellFormed(model', |materials|) by {
      MeshesWellFormedGrow(model.meshes, |materials|, |model.textures|, |textures|);
    }
  }

  /** Meshes well formed against fewer textures stay well formed against more. */
  lemma MeshesWellFormedGrow(meshes: seq<TriangleMesh>, materialCount: int, before: int, after: int)
    requires before <= after
    requires forall mesh :: mesh in meshes ==> MeshWellFormed(mesh, materialCount, before)
    ensures forall mesh :: mesh in meshes ==> MeshWellFormed(mesh, materialCount, after)
  {
  }

  /** The diffuse texture of an accepted material: loaded when its name is accepted, -1 otherwise. */
  method LoadDiffuseTexture(textures: seq<Texture>, known: map<string, int>, texname: string, modelDir: string,
                            decode: string -> Option<Texture>)
    returns (textures': seq<Texture>, known': map<string, int>, id: int)
    requires forall p :: decode(p).Some? ==> WellFormed(decode(p).value)
    requires (forall t :: t in textures ==> WellFormed(t)) && CacheValid(known, textures)
    ensures |textures| <= |textures'| && textures'[..|textures|] == textures
    ensures (forall t :: t in textures' ==> WellFormed(t)) && CacheValid(known', textures')
    ensures -1 <= id < |textures'|
    ensures !AcceptedName(texname) ==> textures' == textures && known' == known && id == -1
  {
    textures', known', id := textures, known, -1;
    if 0 < |texname| < 1000 {
      textures', known', id := LoadTexture(textures, known, texname, modelDir, decode);
    }
    assert textures'[..|textures|] == textures;
  }

  /**
   * One iteration of loadOBJ's shape loop: normalise the face material ids,
   * then build one mesh per material id in use, in increasing order.
   */
  method AddShapeMeshes(model: Model, knownTextures: map<string, int>, shape: ObjShape, attrs: Attributes,
                        materials: seq<ObjMaterial>, modelDir: string, decode: string -> Option<Texture>)
    returns (model': Model, knownTextures': map<string, int>)
    requires ShapeValid(attrs, shape) && 3 * |shape.materialIds| < UINT32_COUNT && materials != []
    requires forall p :: decode(p).Some? ==> WellFormed(decode(p).value)
    requires ModelWellFormed(model, |materials|) && CacheValid(knownTextures, model.textures)
    ensures ModelWellFormed(model', |materials|) && CacheValid(knownTextures', model'.textures)
    ensures Outline(model') == ShapeLoad(Outline(model), Normalized(shape, |materials|), attrs, materials, |materials|)
  {
    var ids, used := NormalizeMaterialIds(shape.materialIds, |materials|);
    var normalized := shape.(materialIds := ids);
    assert normalized == Normalized(shape, |materials|);
    model', knownTextures' := model, knownTextures;
    for materialID := 0 to |materials|
      invariant ModelWellFormed(model', |materials|) && CacheValid(knownTextures', model'.textures)
      invariant Outline(model') == ShapeLoad(Outline(model), normalized, attrs, materials, materialID)
    {
      assert materialID in used <==> UsesMaterial(normalized, materialID);
      if materialID in used {
        model', knownTextures' := AddMaterialMesh(model', knownTextures', normalized, attrs, materialID, materials, modelDir, decode);
      }
    }
  }

  /** One more shape: its material loop runs on what the earlier shapes appended. */
  lemma LoadShapesStep(shapes: seq<ObjShape>, attrs: Attributes, materials: seq<ObjMaterial>, n: nat)
    requires n < |shapes| && forall s :: s in shapes ==> ShapeValid(attrs, s)
    ensures ShapeValid(attrs, shapes[n]) && ShapeValid(attrs, Normalized(shapes[n], |materials|))
    ensures LoadShapes(shapes, attrs, materials, n + 1) ==
      ShapeLoad(LoadShapes(shapes, attrs, materials, n), Normalized(shapes[n], |materials|), attrs, materials, |materials|)
  {
    assert shapes[n] in shapes;
  }

  /** loadOBJ's shape loop, from an empty model and an empty texture cache. */
  method LoadShapesLoop(shapes: seq<ObjShape>, attrs: Attributes, materials: seq<ObjMaterial>, modelDir: string,
                        decode: string -> Option<Texture>) returns (result: Model)
    requires forall s :: s in shapes ==> ShapeValid(attrs, s) && 3 * |s.materialIds| < UINT32_COUNT
    requires materials != []
    requires forall p :: decode(p).Some? ==> WellFormed(decode(p).value)
    ensures ModelWellFormed(result, |materials|)
    ensures Outline(result) == LoadShapes(shapes, attrs, materials, |shapes|)
  {
    result := Model([], [], []);
    var knownTextures: map<string, int> := map[];
    for shapeID := 0 to |shapes|
      invariant ModelWellFormed(result, |materials|) && CacheValid(knownTextures, result.textures)
      invariant Outline(result) == LoadShapes(shapes, attrs, materials, shapeID)
    {
      LoadShapesStep(shapes, attrs, materials, shapeID);
      result, knownTextures := AddShapeMeshes(result, knownTextures, shapes[shapeID], attrs, materials, modelDir, decode);
    }
  }

  /**
   * loadOBJ. `data` is what tinyobj::LoadObj produced, None when it failed
   * (loadOBJ throws then); `decode` stands for stbi_load. Meshes come shape
   * by shape and, within a shape, by increasing material id.
   */
  method LoadObj(data: Option<ObjData>, objFile: Path, decode: string -> Option<Texture>) returns (model: Option<Model>)
    requires data.Some? ==> forall s :: s in data.value.shapes ==>
      ShapeValid(data.value.attrs, s) && 3 * |s.materialIds| < UINT32_COUNT
    requires forall p :: decode(p).Some? ==> WellFormed(decode(p).value)
    ensures data.None? <==> model.None?
    ensures data.Some? ==> ModelWellFormed(model.value, |WithDefaultMaterial(data.value.materials)|)
    ensures data.Some? ==>
      Outline(model.value) ==
      LoadShapes(data.value.shapes, data.value.attrs, WithDefaultMaterial(data.value.materials), |data.value.shapes|)
  {
    if data.None? {
      return None;
    }
    var attrs, shapes := data.value.attrs, data.value.shapes;
    var modelDir := ParentPath(objFile) + "/";
    var materials := data.value.materials;
    if materials == [] {
      materials := materials + [DefaultObjMaterial];
    }
    assert materials == WithDefaultMaterial(data.value.materials);
    var result := LoadShapesLoop(shapes, attrs, materials, modelDir, decode);
    return Some(result);
  }

  /** Every normalised id is a valid index into the material list, so ascending iteration over 0..count-1 visits each id in use. */
  lemma NormalizedIdsInRange(ids: seq<int>, count: int)
    requires 1 <= count
    ensures forall i :: 0 <= i < |ids| ==> 0 <= NormalizeId(ids[i], count) < count
  {
  }
}
