/** Mesh volume by signed tetrahedra against the origin (MeshEx.cs). */
module MeshEx {
  import opened Vectors

  /** The engine mesh, as far as the integrator sees it: its triangle index list,
      three vertex indices per triangle. */
  datatype Mesh = Mesh(triangles: seq<int>)

  /** The single-precision constant 0.166666666666667f, taken as exactly 1/6. */
  const OneSixth: real := 1.0 / 6.0

  /** Signed volume of the tetrahedron (origin, p1, p2, p3): Dot(p1, Cross(p2, p3)) / 6,
      written out as the six products of the source. */
  function SignedVolumeOfTriangle(p1: Vector3, p2: Vector3, p3: Vector3): (v: real)
    ensures v == OneSixth * Dot(p1, Cross(p2, p3))
  {
    var v321 := p3.x * p2.y * p1.z;
    var v231 := p2.x * p3.y * p1.z;
    var v312 := p3.x * p1.y * p2.z;
    var v132 := p1.x * p3.y * p2.z;
    var v213 := p2.x * p1.y * p3.z;
    var v123 := p1.x * p2.y * p3.z;
    OneSixth * (v231 - v321 + v312 - v132 - v213 + v123)
  }

  /** What the loop needs to index safely: whole triples only, every index a vertex. */
  predicate ValidTriangles(triangles: seq<int>, vertexCount: nat) {
    && |triangles| % 3 == 0
    && forall i :: 0 <= i < |triangles| ==> 0 <= triangles[i] < vertexCount
  }

  /** The sum of the signed volumes of all triangles, accumulated from the first. */
  function SignedVolumeSum(vertices: seq<Vector3>, triangles: seq<int>): real
    requires ValidTriangles(triangles, |vertices|)
    decreases |triangles|
  {
    if |triangles| == 0 then 0.0
    else
      var n := |triangles|;
      SignedVolumeSum(vertices, triangles[..n - 3])
      + SignedVolumeOfTriangle(vertices[triangles[n - 3]], vertices[triangles[n - 2]], vertices[triangles[n - 1]])
  }

  /** The volume of a mesh: the absolute value of the signed sum, taken once at the end. */
  function MeshVolume(vertices: seq<Vector3>, triangles: seq<int>): real
    requires ValidTriangles(triangles, |vertices|)
  {
    Abs(SignedVolumeSum(vertices, triangles))
  }

  /** Loops over the triangles three indices at a time, summing signed volumes. */
  method VolumeOfMesh(mesh: Mesh, vertices: array<Vector3>) returns (volume: real)
    requires ValidTriangles(mesh.triangles, vertices.Length)
    ensures volume == MeshVolume(vertices[..], mesh.triangles)
    ensures volume >= 0.0
  {
    var sum := 0.0;
    var triangles := mesh.triangles;
    var i := 0;
    ValidPrefix(triangles, vertices.Length, 0);
    while i < |triangles|
      invariant 0 <= i <= |triangles| && i % 3 == 0
      invariant ValidTriangles(triangles[..i], vertices.Length)
      invariant sum == SignedVolumeSum(vertices[..], triangles[..i])
    {
      SignedVolumeSumStep(vertices[..], triangles, i);
      sum := sum + SignedVolumeOfTriangle(
        vertices[triangles[i]],
        vertices[triangles[i + 1]],
        vertices[triangles[i + 2]]);
      i := i + 3;
    }
    assert triangles[..i] == triangles;
    volume := Abs(sum);
  }

  /** Every whole-triangle prefix of a valid index list is valid. */
  lemma ValidPrefix(triangles: seq<int>, vertexCount: nat, i: nat)
    requires ValidTriangles(triangles, vertexCount) && i <= |triangles| && i % 3 == 0
    ensures ValidTriangles(triangles[..i], vertexCount)
  {
    assert forall k :: 0 <= k < i ==> triangles[..i][k] == triangles[k];
  }

  /** One more triangle adds its signed volume to the sum over the prefix before it. */
  lemma SignedVolumeSumStep(vertices: seq<Vector3>, triangles: seq<int>, i: nat)
    requires ValidTriangles(triangles, |vertices|) && i + 3 <= |triangles| && i % 3 == 0
    ensures ValidTriangles(triangles[..i], |vertices|) && ValidTriangles(triangles[..i + 3], |vertices|)
    ensures SignedVolumeSum(vertices, triangles[..i + 3]) ==
      SignedVolumeSum(vertices, triangles[..i])
      + SignedVolumeOfTriangle(vertices[triangles[i]], vertices[triangles[i + 1]], vertices[triangles[i + 2]])
  {
    ValidPrefix(triangles, |vertices|, i);
    ValidPrefix(triangles, |vertices|, i + 3);
    var p := triangles[..i + 3];
    assert p[..i] == triangles[..i];
    assert p[i] == triangles[i] && p[i + 1] == triangles[i + 1] && p[i + 2] == triangles[i + 2];
  }

  /** The public entry point: exactly the volume VolumeOfMesh computes. */
  method CalculateVolume(mesh: Mesh, vertices: array<Vector3>) returns (volume: real)
    requires ValidTriangles(mesh.triangles, vertices.Length)
    ensures volume == MeshVolume(vertices[..], mesh.triangles)
    ensures volume >= 0.0
  {
    volume := VolumeOfMesh(mesh, vertices);
  }

  /** A mesh without triangles has volume zero. */
  lemma EmptyMeshHasNoVolume(vertices: seq<Vector3>)
    ensures MeshVolume(vertices, []) == 0.0
  {
  }

  /** A triangle with two coincident corners spans no volume. */
  lemma DegenerateTriangleHasNoVolume(p: Vector3, q: Vector3)
    ensures SignedVolumeOfTriangle(p, p, q) == 0.0
    ensures SignedVolumeOfTriangle(p, q, p) == 0.0
    ensures SignedVolumeOfTriangle(q, p, p) == 0.0
  {
  }

  /** Exchanging two corners negates the signed volume; rotating all three keeps it. */
  lemma TriangleOrientation(p1: Vector3, p2: Vector3, p3: Vector3)
    ensures SignedVolumeOfTriangle(p2, p1, p3) == -SignedVolumeOfTriangle(p1, p2, p3)
    ensures SignedVolumeOfTriangle(p1, p3, p2) == -SignedVolumeOfTriangle(p1, p2, p3)
    ensures SignedVolumeOfTriangle(p2, p3, p1) == SignedVolumeOfTriangle(p1, p2, p3)
  {
  }

  /** The index list with every triangle's winding reversed (its last two corners exchanged). */
  function ReverseWinding(triangles: seq<int>): (r: seq<int>)
    requires |triangles| % 3 == 0
    ensures |r| == |triangles|
    ensures forall k :: 0 <= k < |triangles| / 3 ==>
      r[3 * k] == triangles[3 * k] && r[3 * k + 1] == triangles[3 * k + 2] && r[3 * k + 2] == triangles[3 * k + 1]
    decreases |triangles|
  {
    if triangles == [] then []
    else
      var n := |triangles|;
      var r := ReverseWinding(triangles[..n - 3]) + [triangles[n - 3], triangles[n - 1], triangles[n - 2]];
      assert forall k :: 0 <= k < n / 3 - 1 ==> 3 * k + 2 < n - 3;
      r
  }

  lemma {:induction false} ReverseWindingValid(triangles: seq<int>, vertexCount: nat)
    requires ValidTriangles(triangles, vertexCount)
    ensures ValidTriangles(ReverseWinding(triangles), vertexCount)
  {
    var r := ReverseWinding(triangles);
    forall i | 0 <= i < |r|
      ensures 0 <= r[i] < vertexCount
    {
      var k := i / 3;
      assert i == 3 * k || i == 3 * k + 1 || i == 3 * k + 2;
    }
  }

  /** Reversing the winding of every triangle negates the signed sum. */
  lemma {:induction false} ReverseWindingNegates(vertices: seq<Vector3>, triangles: seq<int>)
    requires ValidTriangles(triangles, |vertices|)
    ensures ValidTriangles(ReverseWinding(triangles), |vertices|)
    ensures SignedVolumeSum(vertices, ReverseWinding(triangles)) == -SignedVolumeSum(vertices, triangles)
    decreases |triangles|
  {
    ReverseWindingValid(triangles, |vertices|);
    if triangles != [] {
      var n := |triangles|;
      var prefix := triangles[..n - 3];
      ReverseWindingNegates(vertices, prefix);
      var r := ReverseWinding(triangles);
      assert r[..n - 3] == ReverseWinding(prefix);
      TriangleOrientation(vertices[triangles[n - 3]], vertices[triangles[n - 2]], vertices[triangles[n - 1]]);
    }
  }

  /** So the volume, whose absolute value is taken once after summing, ignores the winding. */
  lemma ReverseWindingKeepsVolume(vertices: seq<Vector3>, triangles: seq<int>)
    requires ValidTriangles(triangles, |vertices|)
    ensures ValidTriangles(ReverseWinding(triangles), |vertices|)
    ensures MeshVolume(vertices, ReverseWinding(triangles)) == MeshVolume(vertices, triangles)
  {
    ReverseWindingNegates(vertices, triangles);
  }

  /** Two valid index lists joined form a valid index list. */
  lemma ValidTrianglesAppend(a: seq<int>, b: seq<int>, vertexCount: nat)
    requires ValidTriangles(a, vertexCount) && ValidTriangles(b, vertexCount)
    ensures ValidTriangles(a + b, vertexCount)
  {
    assert forall i :: 0 <= i < |a + b| ==> (a + b)[i] == if i < |a| then a[i] else b[i - |a|];
  }

  /** The signed sum over two index lists joined is the sum of the two signed sums:
      each triangle contributes on its own, so contributions of opposite sign cancel. */
  lemma {:induction false} SignedVolumeSumAppend(vertices: seq<Vector3>, a: seq<int>, b: seq<int>)
    requires ValidTriangles(a, |vertices|) && ValidTriangles(b, |vertices|)
    ensures ValidTriangles(a + b, |vertices|)
    ensures SignedVolumeSum(vertices, a + b) == SignedVolumeSum(vertices, a) + SignedVolumeSum(vertices, b)
    decreases |b|
  {
    ValidTrianglesAppend(a, b, |vertices|);
    if b == [] {
      assert a + b == a;
    } else {
      var n := |b|;
      var front := b[..n - 3];
      assert ValidTriangles(front, |vertices|) by {
        assert forall i :: 0 <= i < |front| ==> front[i] == b[i];
      }
      SignedVolumeSumAppend(vertices, a, front);
      var ab := a + b;
      var m := |ab|;
      assert ab[..m - 3] == a + front;
      assert ab[m - 3] == b[n - 3] && ab[m - 2] == b[n - 2] && ab[m - 1] == b[n - 1];
      var last := SignedVolumeOfTriangle(vertices[b[n - 3]], vertices[b[n - 2]], vertices[b[n - 1]]);
      assert SignedVolumeSum(vertices, ab) == SignedVolumeSum(vertices, a + front) + last;
      assert SignedVolumeSum(vertices, b) == SignedVolumeSum(vertices, front) + last;
    }
  }
}
