/**
 * The HOST deviation driver: for every vertex of the target mesh, the
 * distance to the closest triangle of the source mesh.
 *
 * The BVH that accelerates the closest-triangle query is not part of this
 * model: the query is specified by its result, the minimum over all source
 * triangles of a point-to-triangle squared distance. That distance and
 * sqrtf are supplied as a Kernel; ValidKernel states what the proofs assume
 * of them.
 */
module GeometryDeviation {
  import opened Numeric
  import opened MeshTypes

  /** Which backend runs the computation. */
  datatype ExecTag = Host | Device

  datatype Triangle = Triangle(a: Float3, b: Float3, c: Float3)

  /** An axis-aligned box, lower and upper corners. */
  datatype Box = Box(lower: Float3, upper: Float3)

  predicate Contains(box: Box, p: Float3)
  {
    box.lower.x <= p.x <= box.upper.x && box.lower.y <= p.y <= box.upper.y && box.lower.z <= p.z <= box.upper.z
  }

  function Min3(a: real, b: real, c: real): (r: real)
    ensures r <= a && r <= b && r <= c
    ensures r == a || r == b || r == c
  {
    if a <= b && a <= c then a else if b <= c then b else c
  }

  function Max3(a: real, b: real, c: real): (r: real)
    ensures a <= r && b <= r && c <= r
    ensures r == a || r == b || r == c
  {
    if a >= b && a >= c then a else if b >= c then b else c
  }

  /** triangle.bounds(): the smallest box holding the three corners. */
  function Bounds(t: Triangle): (box: Box)
    ensures Contains(box, t.a) && Contains(box, t.b) && Contains(box, t.c)
    ensures forall other: Box :: Contains(other, t.a) && Contains(other, t.b) && Contains(other, t.c) ==>
      other.lower.x <= box.lower.x && other.lower.y <= box.lower.y && other.lower.z <= box.lower.z &&
      box.upper.x <= other.upper.x && box.upper.y <= other.upper.y && box.upper.z <= other.upper.z
  {
    Box(Float3(Min3(t.a.x, t.b.x, t.c.x), Min3(t.a.y, t.b.y, t.c.y), Min3(t.a.z, t.b.z, t.c.z)),
        Float3(Max3(t.a.x, t.b.x, t.c.x), Max3(t.a.y, t.b.y, t.c.y), Max3(t.a.z, t.b.z, t.c.z)))
  }

  /** The geometric primitives the driver calls: the point-to-triangle squared distance and sqrtf. */
  datatype Kernel = Kernel(sqrDist: (Triangle, Float3) -> real, sqrt: real -> real)

  /**
   * What the proofs assume of the kernel: distances are non-negative and
   * zero at a corner; sqrt is non-negative, zero at zero and monotone on the
   * non-negative reals.
   */
  ghost predicate ValidKernel(k: Kernel)
  {
    (forall t: Triangle, p: Float3 :: k.sqrDist(t, p) >= 0.0) &&
    (forall t: Triangle :: k.sqrDist(t, t.a) == 0.0 && k.sqrDist(t, t.b) == 0.0 && k.sqrDist(t, t.c) == 0.0) &&
    (forall x: real :: x >= 0.0 ==> k.sqrt(x) >= 0.0) &&
    (forall x: real, y: real :: 0.0 <= x <= y ==> k.sqrt(x) <= k.sqrt(y)) &&
    k.sqrt(0.0) == 0.0
  }

  /** The triangle a face of the mesh describes, corners in index order. */
  function FaceTriangle(mesh: TriangleMesh, i: int): Triangle
    requires IndicesInRange(mesh)
    requires 0 <= i < |mesh.index|
  {
    var f := mesh.index[i];
    Triangle(mesh.vertex[f.x], mesh.vertex[f.y], mesh.vertex[f.z])
  }

  /** The triangles of a mesh, one per face, in face order. */
  function TrianglesOf(mesh: TriangleMesh): (ts: seq<Triangle>)
    requires IndicesInRange(mesh)
    ensures |ts| == |mesh.index|
    ensures forall i :: 0 <= i < |ts| ==> ts[i] == FaceTriangle(mesh, i)
  {
    seq(|mesh.index|, i requires 0 <= i < |mesh.index| => FaceTriangle(mesh, i))
  }

  /** The closest-triangle query: the smallest squared distance from p to any of the triangles. */
  function ClosestSqrDist(triangles: seq<Triangle>, p: Float3, sqrDist: (Triangle, Float3) -> real): (r: real)
    requires |triangles| > 0
    ensures forall i :: 0 <= i < |triangles| ==> r <= sqrDist(triangles[i], p)
    ensures exists i :: 0 <= i < |triangles| && r == sqrDist(triangles[i], p)
    decreases |triangles|
  {
    if |triangles| == 1 then sqrDist(triangles[0], p)
    else
      var rest := ClosestSqrDist(triangles[1..], p, sqrDist);
      var here := sqrDist(triangles[0], p);
      assert forall i :: 1 <= i < |triangles| ==> triangles[i] == triangles[1..][i - 1];
      if here <= rest then here else rest
  }

  /** The computation is skipped when the source has no vertices or no faces, or the target has no vertices. */
  predicate Skips(source: TriangleMesh, target: TriangleMesh)
  {
    source.vertex == [] || source.index == [] || target.vertex == []
  }

  /** The deviations the driver computes: one per target vertex, in order, the sqrt of the closest squared distance. */
  function DeviationsOf(source: TriangleMesh, target: TriangleMesh, k: Kernel): (devs: seq<real>)
    requires IndicesInRange(source)
    requires source.index != []
    ensures |devs| == |target.vertex|
  {
    var ts := TrianglesOf(source);
    seq(|target.vertex|, j requires 0 <= j < |target.vertex| => k.sqrt(ClosestSqrDist(ts, target.vertex[j], k.sqrDist)))
  }

  /**
   * The first loop of computeDeviation: one triangle and its bounding box per
   * source face.
   */
  method BuildTriangles(source: TriangleMesh) returns (triangles: seq<Triangle>, boxes: seq<Box>)
    requires IndicesInRange(source)
    ensures triangles == TrianglesOf(source)
    ensures |boxes| == |triangles|
    ensures forall i :: 0 <= i < |boxes| ==> boxes[i] == Bounds(triangles[i])
  {
    var n := |source.index|;
    var tri := new Triangle[n](_ => Triangle(Float3(0.0, 0.0, 0.0), Float3(0.0, 0.0, 0.0), Float3(0.0, 0.0, 0.0)));
    var box := new Box[n](_ => Box(Float3(0.0, 0.0, 0.0), Float3(0.0, 0.0, 0.0)));
    for i := 0 to n
      invariant forall j :: 0 <= j < i ==> tri[j] == FaceTriangle(source, j)
      invariant forall j :: 0 <= j < i ==> box[j] == Bounds(tri[j])
    {
      var f := source.index[i];
      tri[i] := Triangle(source.vertex[f.x], source.vertex[f.y], source.vertex[f.z]);
      box[i] := Bounds(tri[i]);
    }
    triangles, boxes := tri[..], box[..];
  }

  /** GeometryDeviation<HOST>: the two meshes are fixed at construction; the deviations are the mutable result. */
  class GeometryDeviationHost {
    const sourceMesh: TriangleMesh
    const targetMesh: TriangleMesh
    const useSampling: bool
    var deviations: seq<real>

    constructor(source: TriangleMesh, target: TriangleMesh, useSampling: bool)
      ensures sourceMesh == source && targetMesh == target && this.useSampling == useSampling
      ensures deviations == []
    {
      sourceMesh := source;
      targetMesh := target;
      this.useSampling := useSampling;
      deviations := [];
    }

    /** setDeviation: replaces the stored deviations wholesale. */
    method SetDeviation(dev: seq<real>)
      modifies this
      ensures deviations == dev
    {
      deviations := dev;
    }

    /** getDeviations. */
    method GetDeviations() returns (devs: seq<real>)
      ensures devs == deviations
    {
      devs := deviations;
    }

    /**
     * computeDeviation: unless the meshes are empty, replaces the stored
     * deviations with one closest distance per target vertex.
     */
    method ComputeDeviation(k: Kernel)
      requires !Skips(sourceMesh, targetMesh) ==> IndicesInRange(sourceMesh)
      modifies this
      ensures Skips(sourceMesh, targetMesh) ==> deviations == old(deviations)
      ensures !Skips(sourceMesh, targetMesh) ==> deviations == DeviationsOf(sourceMesh, targetMesh, k)
    {
      if Skips(sourceMesh, targetMesh) {
        return;
      }
      var triangles, boxes := BuildTriangles(sourceMesh);
      var devs := QueryAll(triangles, targetMesh.vertex, k);
      assert devs == DeviationsOf(sourceMesh, targetMesh, k);
      SetDeviation(devs);
    }
  }

  /** The second loop of computeDeviation: one closest-triangle query per target vertex, in order. */
  method QueryAll(triangles: seq<Triangle>, points: seq<Float3>, k: Kernel) returns (devs: seq<real>)
    requires |triangles| > 0
    ensures |devs| == |points|
    ensures forall i :: 0 <= i < |points| ==> devs[i] == k.sqrt(ClosestSqrDist(triangles, points[i], k.sqrDist))
  {
    devs := [];
    for j := 0 to |points|
      invariant |devs| == j
      invariant forall i :: 0 <= i < j ==> devs[i] == k.sqrt(ClosestSqrDist(triangles, points[i], k.sqrDist))
    {
      var query := ClosestSqrDist(triangles, points[j], k.sqrDist);
      devs := devs + [k.sqrt(query)];
    }
  }

  /** Running computeDeviation twice stores the same deviations both times: the meshes it reads are fixed. */
  method ComputeTwice(g: GeometryDeviationHost, k: Kernel) returns (first: seq<real>, second: seq<real>)
    requires !Skips(g.sourceMesh, g.targetMesh) ==> IndicesInRange(g.sourceMesh)
    modifies g
    ensures first == second
  {
    g.ComputeDeviation(k);
    first := g.GetDeviations();
    g.ComputeDeviation(k);
    second := g.GetDeviations();
  }

  // ----- properties of the computed deviations -----

  /** Every deviation is the square root of a non-negative quantity and so is itself non-negative. */
  lemma DeviationsNonNegative(source: TriangleMesh, target: TriangleMesh, k: Kernel)
    requires IndicesInRange(source)
    requires source.index != []
    requires ValidKernel(k)
    ensures forall j :: 0 <= j < |target.vertex| ==> DeviationsOf(source, target, k)[j] >= 0.0
  {
    var ts := TrianglesOf(source);
    forall j | 0 <= j < |target.vertex|
      ensures DeviationsOf(source, target, k)[j] >= 0.0
    {
      var d := ClosestSqrDist(ts, target.vertex[j], k.sqrDist);
      assert d >= 0.0;
    }
  }

  /** Every deviation is no larger than the distance to any one source triangle. */
  lemma DeviationIsMinimum(source: TriangleMesh, target: TriangleMesh, k: Kernel, j: int, i: int)
    requires IndicesInRange(source)
    requires source.index != []
    requires ValidKernel(k)
    requires 0 <= j < |target.vertex|
    requires 0 <= i < |source.index|
    ensures DeviationsOf(source, target, k)[j] <= k.sqrt(k.sqrDist(FaceTriangle(source, i), target.vertex[j]))
  {
    var ts, p := TrianglesOf(source), target.vertex[j];
    var d := ClosestSqrDist(ts, p, k.sqrDist);
    var m :| 0 <= m < |ts| && d == k.sqrDist(ts[m], p);
    assert 0.0 <= d <= k.sqrDist(ts[i], p);
  }

  /** A target vertex that coincides with a corner of a source face has deviation zero. */
  lemma CoincidentVertexHasZeroDeviation(source: TriangleMesh, target: TriangleMesh, k: Kernel, j: int, i: int)
    requires IndicesInRange(source)
    requires 0 <= i < |source.index|
    requires ValidKernel(k)
    requires 0 <= j < |target.vertex|
    requires target.vertex[j] in {source.vertex[source.index[i].x], source.vertex[source.index[i].y], source.vertex[source.index[i].z]}
    ensures DeviationsOf(source, target, k)[j] == 0.0
  {
    var ts := TrianglesOf(source);
    var p := target.vertex[j];
    var d := ClosestSqrDist(ts, p, k.sqrDist);
    assert k.sqrDist(ts[i], p) == 0.0;
    assert d == 0.0;
  }

  /** Vertex v is a corner of some face. */
  predicate VertexUsed(mesh: TriangleMesh, v: int)
  {
    exists i :: 0 <= i < |mesh.index| && v in {mesh.index[i].x, mesh.index[i].y, mesh.index[i].z}
  }

  /** Every vertex of the mesh is a corner of some face. */
  predicate EveryVertexUsed(mesh: TriangleMesh)
  {
    forall v :: 0 <= v < |mesh.vertex| ==> VertexUsed(mesh, v)
  }

  /** A mesh compared with itself has zero deviation at every vertex that some face uses. */
  lemma SelfDeviationIsZero(mesh: TriangleMesh, k: Kernel)
    requires IndicesInRange(mesh)
    requires mesh.index != []
    requires EveryVertexUsed(mesh)
    requires ValidKernel(k)
    ensures forall j :: 0 <= j < |mesh.vertex| ==> DeviationsOf(mesh, mesh, k)[j] == 0.0
  {
    forall j | 0 <= j < |mesh.vertex|
      ensures DeviationsOf(mesh, mesh, k)[j] == 0.0
    {
      assert VertexUsed(mesh, j);
      var i :| 0 <= i < |mesh.index| && j in {mesh.index[i].x, mesh.index[i].y, mesh.index[i].z};
      CoincidentVertexHasZeroDeviation(mesh, mesh, k, j, i);
    }
  }
}
