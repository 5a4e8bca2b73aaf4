/** The polyhedron that keeps its own geometry buffers alive for ODE: flat
    triangle indices, face planes, vertex coordinates and polygon records, and
    the two native descriptors built over them.

    Despite its name, the tables it installs describe four vertices and four
    triangles: a tetrahedron. */
module Dodecahedron {
  import opened Polyhedron
  import opened FlatMesh

  /** Number of faces (and of vertices) in the installed tables. */
  const FaceCount: nat := 4

  /** Triangle vertex indices, three per face. */
  function SetupIndices(): (ix: seq<U32>)
    ensures |ix| == FaceCount * 3
  {
    [ 3, 1, 0,
      3, 2, 1,
      3, 0, 2,
      2, 0, 1 ]
  }

  /** Face plane equations, four reals per face (values are opaque here). */
  function SetupPlanes(): (ps: seq<real>)
    ensures |ps| == FaceCount * 4
  {
    [ 0.0, 0.0, -1.0, 0.2041,
      -0.9107, 0.2440, 0.3333, 0.2041,
      0.2440, -0.9107, 0.3333, 0.2041,
      0.6667, 0.6667, 0.3334, 0.2042 ]
  }

  /** Vertex coordinates, three reals per vertex (values are opaque here). */
  function SetupVtx(): (vs: seq<real>)
    ensures |vs| == FaceCount * 3
  {
    [ 0.5577, -0.1494, -0.2041,
      -0.1494, 0.5577, -0.2041,
      0.0, 0.0, 0.6124,
      -0.4082, -0.4082, -0.2041 ]
  }

  /** Polygon records, a corner count followed by the corners, one per face. */
  function SetupPolygons(): (p: seq<U32>)
    ensures |p| == FaceCount * (1 + 3)
  {
    [ 3, 3, 1, 0,
      3, 3, 2, 1,
      3, 3, 0, 2,
      3, 2, 0, 1 ]
  }

  /** The triangles of the installed index table. */
  lemma SetupTriangles()
    ensures Triangles(SetupIndices()) == [Tri(3, 1, 0), Tri(3, 2, 1), Tri(3, 0, 2), Tri(2, 0, 1)]
  {
  }

  /** Every corner of every installed triangle names one of the installed
      vertices. */
  lemma SetupIndicesInRange()
    ensures IndicesInRange(SetupIndices(), |SetupVtx()| / 3)
  {
  }

  /** Polygon record i is the count 3 followed by the corners of triangle i,
      in the same order; there is one record and one plane per triangle. */
  lemma SetupPolygonsMatchTriangles()
    ensures SetupPolygons() == PolygonsOf(Triangles(SetupIndices()))
    ensures |SetupPlanes()| / 4 == |SetupPolygons()| / 4 == |Triangles(SetupIndices())|
  {
  }

  /** The twelve directed edges of the installed triangles, in winding order. */
  const SetupEdgeList: seq<Edge> :=
    [ Edge(3, 1), Edge(1, 0), Edge(0, 3),
      Edge(3, 2), Edge(2, 1), Edge(1, 3),
      Edge(3, 0), Edge(0, 2), Edge(2, 3),
      Edge(2, 0), Edge(0, 1), Edge(1, 2) ]

  /** The directed edges of the installed triangles, in winding order. */
  lemma SetupEdges()
    ensures Edges(Triangles(SetupIndices())) == SetupEdgeList
  {
  }

  /** Every installed triangle has three distinct corners. */
  lemma SetupCornersDistinct()
    ensures DistinctCorners(Triangles(SetupIndices()))
  {
  }

  /** No installed directed edge repeats. */
  lemma SetupEdgesDistinct()
    ensures EdgesDistinct(SetupEdgeList)
  {
  }

  /** The reverse of every installed directed edge is installed too. */
  lemma SetupReversesPresent()
    ensures forall k :: 0 <= k < |SetupEdgeList| ==> Reverse(SetupEdgeList[k]) in SetupEdgeList
  {
  }

  /** The installed triangles form a closed, consistently wound surface. */
  lemma SetupSurfaceClosed()
    ensures ClosedConsistentlyWound(Triangles(SetupIndices()))
  {
    SetupEdges();
    SetupEdgesDistinct();
    SetupReversesPresent();
  }

  class Dodecahedron {
    /** n * 3 flat triangle indices */
    var indices: seq<U32>
    /** n * 4 flat plane equations */
    var planes: seq<real>
    /** n * 3 flat vertex coordinates */
    var vtx: seq<real>
    /** n * (1 + 3) flat polygon records */
    var polygons: seq<U32>
    /** trimesh descriptor over vtx and indices */
    var tmv: TriMeshVI
    /** convex descriptor over planes, vtx and polygons */
    var fvp: ConvexFVP
    /** scale ratio */
    var r: real

    /** Both descriptors describe this object's own buffers, and every index
        names an existing vertex. */
    ghost predicate Valid()
      reads this
    {
      && TmvDescribes(tmv, vtx, indices)
      && FvpDescribes(fvp, planes, vtx, polygons)
      && IndicesWithinVertices(tmv, indices)
    }

    /** The buffers hold a closed, consistently wound surface of n proper
        triangles, with one plane and one polygon record per triangle. */
    ghost predicate WellFormed()
      reads this
    {
      var ts := Triangles(indices);
      && |indices| == 3 * |ts|
      && |planes| == 4 * |ts|
      && |vtx| % 3 == 0
      && polygons == PolygonsOf(ts)
      && DistinctCorners(ts)
      && ClosedConsistentlyWound(ts)
    }

    /** `void()`: empty buffers, void descriptors, ratio 1. */
    constructor Void()
      ensures indices == [] && planes == [] && vtx == [] && polygons == []
      ensures tmv == VoidTmv() && fvp == VoidFvp()
      ensures r == 1.0
      ensures Valid() && WellFormed()
    {
      indices, planes, vtx, polygons := [], [], [], [];
      tmv := VoidTmv();
      fvp := VoidFvp();
      r := 1.0;
    }

    /** `setup()`: installs the constant tables, whatever the buffers held
        before (so a second call leaves the same buffer contents, descriptor
        counts and ratio), then builds both descriptors over the new buffers.
        The ratio is left alone. */
    method Setup()
      modifies this
      ensures indices == SetupIndices() && planes == SetupPlanes()
      ensures vtx == SetupVtx() && polygons == SetupPolygons()
      ensures tmv == MakeTmv(vtx, indices) && fvp == MakeFvp(planes, vtx, polygons)
      ensures r == old(r)
      ensures Valid() && WellFormed()
    {
      indices := SetupIndices();
      planes := SetupPlanes();
      vtx := SetupVtx();
      polygons := SetupPolygons();
      tmv := MakeTmv(vtx, indices);
      fvp := MakeFvp(planes, vtx, polygons);
      SetupIndicesInRange();
      WithinVerticesIffInRange(tmv, vtx, indices);
      SetupPolygonsMatchTriangles();
      SetupCornersDistinct();
      SetupSurfaceClosed();
    }
  }
}
