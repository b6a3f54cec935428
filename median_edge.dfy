/**
 * computeMedianEdgeLength, which both demos carry word for word: the three
 * edge lengths of every face are collected in face order, sorted, and the
 * element at index size/2 is returned (the upper median when the count is
 * even); a mesh without faces gives 1.0.
 *
 * The vector's `length` takes its square root from the caller as `sqrt`;
 * std::sort is modelled by an insertion sort that is proved to produce a
 * sorted permutation, and any sorted permutation gives the same median.
 */
module MedianEdge {
  import opened MeshTypes

  /** The length of one edge vector. */
  function EdgeLength(v: Float3, sqrt: real -> real): real
  {
    sqrt(SqrLength(v))
  }

  /** The three edges of a face: v1-v0, v2-v1, v0-v2. */
  function FaceEdges(vertex: seq<Float3>, f: UInt3, sqrt: real -> real): (es: seq<real>)
    requires f.x < |vertex| && f.y < |vertex| && f.z < |vertex|
    ensures |es| == 3
  {
    var v0, v1, v2 := vertex[f.x], vertex[f.y], vertex[f.z];
    [EdgeLength(Sub(v1, v0), sqrt), EdgeLength(Sub(v2, v1), sqrt), EdgeLength(Sub(v0, v2), sqrt)]
  }

  /** The edge lengths of the first k faces, in the order they are pushed. */
  function EdgeLengths(mesh: TriangleMesh, k: nat, sqrt: real -> real): (es: seq<real>)
    requires IndicesInRange(mesh) && k <= |mesh.index|
    ensures |es| == 3 * k
  {
    if k == 0 then []
    else EdgeLengths(mesh, k - 1, sqrt) + FaceEdges(mesh.vertex, mesh.index[k - 1], sqrt)
  }

  /** The loop that fills `edges`, face by face. */
  method CollectEdges(mesh: TriangleMesh, sqrt: real -> real) returns (edges: seq<real>)
    requires IndicesInRange(mesh)
    ensures edges == EdgeLengths(mesh, |mesh.index|, sqrt)
  {
    edges := [];
    for i := 0 to |mesh.index|
      invariant edges == EdgeLengths(mesh, i, sqrt)
    {
      var f := mesh.index[i];
      var v0, v1, v2 := mesh.vertex[f.x], mesh.vertex[f.y], mesh.vertex[f.z];
      var e0 := EdgeLength(Sub(v1, v0), sqrt);
      var e1 := EdgeLength(Sub(v2, v1), sqrt);
      var e2 := EdgeLength(Sub(v0, v2), sqrt);
      edges := edges + [e0];
      edges := edges + [e1];
      edges := edges + [e2];
    }
  }

  // ----- sorting -----

  predicate Sorted(s: seq<real>)
  {
    forall i, j :: 0 <= i < j < |s| ==> s[i] <= s[j]
  }

  /** x inserted before the first element not smaller than it. */
  function Insert(x: real, s: seq<real>): (r: seq<real>)
    requires Sorted(s)
    ensures Sorted(r)
    ensures multiset(r) == multiset(s) + multiset{x}
    decreases |s|
  {
    if s == [] || x <= s[0] then
      [x] + s
    else
      var rest := Insert(x, s[1..]);
      assert s == [s[0]] + s[1..];
      PrependSmallest(s[0], s[1..], x, rest);
      [s[0]] + rest
  }

  /** Putting h in front of a sorted permutation of t + [x] keeps it sorted when h bounds both. */
  lemma PrependSmallest(h: real, t: seq<real>, x: real, rest: seq<real>)
    requires Sorted([h] + t) && h < x
    requires Sorted(rest) && multiset(rest) == multiset(t) + multiset{x}
    ensures Sorted([h] + rest)
  {
    forall j | 0 <= j < |rest|
      ensures h <= rest[j]
    {
      assert rest[j] in multiset(rest);
      if rest[j] != x {
        assert rest[j] in multiset(t);
        var k :| 0 <= k < |t| && t[k] == rest[j];
        assert ([h] + t)[0] == h && ([h] + t)[k + 1] == t[k];
      }
    }
  }

  /** The reference sort: a sorted permutation of s. */
  function SortReals(s: seq<real>): (r: seq<real>)
    ensures Sorted(r)
    ensures multiset(r) == multiset(s)
    decreases |s|
  {
    if s == [] then []
    else
      assert s == [s[0]] + s[1..];
      Insert(s[0], SortReals(s[1..]))
  }

  /** Two sorted arrangements of the same values are equal: the sorted order is unique. */
  lemma {:induction false} SortedPermutationUnique(a: seq<real>, b: seq<real>)
    requires Sorted(a) && Sorted(b)
    requires multiset(a) == multiset(b)
    ensures a == b
    decreases |a|
  {
    assert |a| == |multiset(a)| == |multiset(b)| == |b|;
    if a != [] {
      HeadIsLeast(a, b[0]);
      HeadIsLeast(b, a[0]);
      assert a[0] == b[0];
      SortedTail(a);
      SortedTail(b);
      assert a == [a[0]] + a[1..];
      assert b == [b[0]] + b[1..];
      assert multiset(a[1..]) == multiset(a) - multiset{a[0]};
      assert multiset(b[1..]) == multiset(b) - multiset{b[0]};
      SortedPermutationUnique(a[1..], b[1..]);
    }
  }

  lemma SortedTail(a: seq<real>)
    requires Sorted(a) && a != []
    ensures Sorted(a[1..])
  {
    forall i, j | 0 <= i < j < |a| - 1
      ensures a[1..][i] <= a[1..][j]
    {
      assert a[1..][i] == a[i + 1] && a[1..][j] == a[j + 1];
    }
  }

  lemma HeadIsLeast(a: seq<real>, v: real)
    requires Sorted(a) && v in multiset(a)
    ensures a != [] && a[0] <= v
  {
    var k :| 0 <= k < |a| && a[k] == v;
  }

  // ----- the median -----

  /** The value computeMedianEdgeLength returns. */
  function MedianEdgeLength(mesh: TriangleMesh, sqrt: real -> real): (m: real)
    requires IndicesInRange(mesh)
    ensures |mesh.index| == 0 ==> m == 1.0
    ensures |mesh.index| > 0 ==> m in EdgeLengths(mesh, |mesh.index|, sqrt)
  {
    var edges := EdgeLengths(mesh, |mesh.index|, sqrt);
    if edges == [] then 1.0
    else
      var sorted := SortReals(edges);
      assert sorted[|sorted| / 2] in multiset(edges);
      sorted[|sorted| / 2]
  }

  /**
   * For a mesh with F > 0 faces the result is element floor(3F/2) of the
   * 3F edge lengths in sorted order, however they were sorted.
   */
  lemma MedianIsOrderStatistic(mesh: TriangleMesh, sqrt: real -> real, sorted: seq<real>)
    requires IndicesInRange(mesh) && |mesh.index| > 0
    requires Sorted(sorted) && multiset(sorted) == multiset(EdgeLengths(mesh, |mesh.index|, sqrt))
    ensures |sorted| == 3 * |mesh.index|
    ensures MedianEdgeLength(mesh, sqrt) == sorted[3 * |mesh.index| / 2]
  {
    var edges := EdgeLengths(mesh, |mesh.index|, sqrt);
    assert |sorted| == |multiset(sorted)| == |edges|;
    SortedPermutationUnique(sorted, SortReals(edges));
  }

  /** The computation as written: collect, return 1.0 when empty, sort, take the middle element. */
  method ComputeMedianEdgeLength(mesh: TriangleMesh, sqrt: real -> real) returns (m: real)
    requires IndicesInRange(mesh)
    ensures m == MedianEdgeLength(mesh, sqrt)
  {
    var edges := CollectEdges(mesh, sqrt);
    if |edges| == 0 {
      return 1.0;
    }
    var sorted := SortReals(edges);
    m := sorted[|sorted| / 2];
  }
}
