/**
 * The value types of the mesh layer: CUDA-style float2/float3/uint3 vectors,
 * the triangle mesh, materials, textures and the model that owns them.
 * Heap-owned objects become value sequences.
 */
module MeshTypes {
  import opened Numeric

  datatype Float2 = Float2(x: real, y: real)

  datatype Float3 = Float3(x: real, y: real, z: real)

  /** A face: three vertex ids. */
  datatype UInt3 = UInt3(x: uint32, y: uint32, z: uint32)

  function Sub(a: Float3, b: Float3): Float3
  {
    Float3(a.x - b.x, a.y - b.y, a.z - b.z)
  }

  /** Squared Euclidean length. */
  function SqrLength(v: Float3): (r: real)
    ensures 0.0 <= r
  {
    v.x * v.x + v.y * v.y + v.z * v.z
  }

  /** A triangle mesh; `index` holds one vertex-id triple per face. */
  datatype TriangleMesh = TriangleMesh(
    vertex: seq<Float3>,
    normal: seq<Float3>,
    texcoord: seq<Float2>,
    index: seq<UInt3>,
    name: string,
    materialID: int,
    materialTextureID: int)

  /** A default-constructed mesh. */
  const EmptyMesh: TriangleMesh := TriangleMesh([], [], [], [], "", -1, -1)

  /** Every face refers to existing vertices. */
  predicate IndicesInRange(m: TriangleMesh)
  {
    forall i :: 0 <= i < |m.index| ==>
      m.index[i].x < |m.vertex| && m.index[i].y < |m.vertex| && m.index[i].z < |m.vertex|
  }

  datatype Material = Material(
    ambient: Float3,
    diffuse: Float3,
    specular: Float3,
    emission: Float3,
    shininess: real,
    dissolve: real,
    illuminationModel: int)

  /** A default-constructed material. */
  const DefaultMaterial: Material :=
    Material(Float3(1.0, 1.0, 1.0), Float3(1.0, 1.0, 1.0), Float3(0.5, 0.5, 0.5),
             Float3(0.0, 0.0, 0.0), 250.0, 1.0, 2)

  /** RGBA pixels stored row by row; `pixel[y][x]`. */
  datatype Texture = Texture(pixel: seq<seq<uint32>>, width: int, height: int)

  datatype Model = Model(materials: seq<Material>, meshes: seq<TriangleMesh>, textures: seq<Texture>)
}
