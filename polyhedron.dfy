/** The native geometry descriptors that ODE's trimesh and convex geometries are
    built from, and the "void" descriptors a polyhedron starts out with.

    A descriptor holds element counts and raw pointers into flat buffers owned by
    the polyhedron. Pointers are modelled by which buffer they point into (or
    Null); their addresses and lifetimes are not modelled. */
module Polyhedron {

  /** ODE's `dTriIndex` and the `u32` of the polygon buffer: 32-bit unsigned. */
  type U32 = x: int | 0 <= x < 0x1_0000_0000

  /** The four flat buffers a polyhedron owns. */
  datatype BufferName = Vtx | Indices | Planes | Polygons

  /** A raw pointer: null, or the start of one of the polyhedron's buffers. */
  datatype Ptr = Null | Into(buffer: BufferName)

  /** `trimeshvi`: vertices (3 reals each) and a flat triangle index list. */
  datatype TriMeshVI = TriMeshVI(vtxCount: nat, vtx: Ptr, indices: Ptr, indexCount: nat)

  /** `convexfvp`: face planes (4 reals each), vertices (3 reals each) and
      polygon records (a count followed by that many vertex indices). */
  datatype ConvexFVP = ConvexFVP(faceCount: nat, faces: Ptr, vtxCount: nat, vtx: Ptr, polygons: Ptr)

  /** The trimesh descriptor reads only vertices 0..vtxCount-1: every index it
      covers names one of them. */
  predicate IndicesWithinVertices(t: TriMeshVI, indices: seq<int>)
  {
    forall k :: 0 <= k < t.indexCount && k < |indices| ==> 0 <= indices[k] < t.vtxCount
  }

  /** `t` describes the buffers `vtx` and `indices`: its counts are theirs, and a
      null pointer only stands for an empty buffer. */
  predicate TmvDescribes(t: TriMeshVI, vtx: seq<real>, indices: seq<int>)
  {
    && t.vtxCount == |vtx| / 3
    && t.indexCount == |indices|
    && (t.vtx == Null ==> |vtx| == 0) && (t.vtx != Null ==> t.vtx == Into(Vtx))
    && (t.indices == Null ==> |indices| == 0) && (t.indices != Null ==> t.indices == Into(Indices))
  }

  /** `f` describes the buffers `planes`, `vtx` and `polygons`. */
  predicate FvpDescribes(f: ConvexFVP, planes: seq<real>, vtx: seq<real>, polygons: seq<int>)
  {
    && f.faceCount == |planes| / 4
    && f.vtxCount == |vtx| / 3
    && (f.faces == Null ==> |planes| == 0) && (f.faces != Null ==> f.faces == Into(Planes))
    && (f.vtx == Null ==> |vtx| == 0) && (f.vtx != Null ==> f.vtx == Into(Vtx))
    && (f.polygons == Null ==> |polygons| == 0) && (f.polygons != Null ==> f.polygons == Into(Polygons))
  }

  /** `void_tmv`: the empty trimesh descriptor. It describes the empty buffers,
      and its index-validity condition holds of any index list because it
      covers no index at all. */
  function VoidTmv(): (t: TriMeshVI)
    ensures t.vtxCount == 0 && t.indexCount == 0
    ensures t.vtx == Null && t.indices == Null
    ensures TmvDescribes(t, [], [])
    ensures forall indices: seq<int> :: IndicesWithinVertices(t, indices)
  {
    TriMeshVI(0, Null, Null, 0)
  }

  /** `void_fvp`: the empty convex descriptor; it describes the empty buffers. */
  function VoidFvp(): (f: ConvexFVP)
    ensures f.faceCount == 0 && f.vtxCount == 0
    ensures f.faces == Null && f.vtx == Null && f.polygons == Null
    ensures FvpDescribes(f, [], [], [])
  {
    ConvexFVP(0, Null, 0, Null, Null)
  }

  /** `trimeshvi::new(&mut vtx, &mut indices)`: a descriptor over the two buffers. */
  function MakeTmv(vtx: seq<real>, indices: seq<int>): (t: TriMeshVI)
    ensures TmvDescribes(t, vtx, indices)
    ensures t.vtx == Into(Vtx) && t.indices == Into(Indices)
    ensures 3 * t.vtxCount <= |vtx| < 3 * t.vtxCount + 3
  {
    TriMeshVI(|vtx| / 3, Into(Vtx), Into(Indices), |indices|)
  }

  /** `convexfvp::new(&mut planes, &mut vtx, &mut polygons)`: a descriptor over
      the three buffers; it shares the vertex buffer with the trimesh one. */
  function MakeFvp(planes: seq<real>, vtx: seq<real>, polygons: seq<int>): (f: ConvexFVP)
    ensures FvpDescribes(f, planes, vtx, polygons)
    ensures f.faces == Into(Planes) && f.vtx == Into(Vtx) && f.polygons == Into(Polygons)
    ensures 4 * f.faceCount <= |planes| < 4 * f.faceCount + 4
  {
    ConvexFVP(|planes| / 4, Into(Planes), |vtx| / 3, Into(Vtx), Into(Polygons))
  }

  /** A descriptor that describes its buffers covers only valid vertices
      exactly when every entry of the index buffer names one of the
      `|vtx| / 3` whole vertices. */
  lemma WithinVerticesIffInRange(t: TriMeshVI, vtx: seq<real>, indices: seq<int>)
    requires TmvDescribes(t, vtx, indices)
    ensures IndicesWithinVertices(t, indices) <==>
      forall k :: 0 <= k < |indices| ==> 0 <= indices[k] < |vtx| / 3
  {
  }

  /** The void descriptors are the only ones that describe empty buffers with
      null pointers: a constant, whatever produced it. */
  lemma VoidDescriptorsUnique(t: TriMeshVI, f: ConvexFVP)
    requires TmvDescribes(t, [], []) && t.vtx == Null && t.indices == Null
    requires FvpDescribes(f, [], [], []) && f.faces == Null && f.vtx == Null && f.polygons == Null
    ensures t == VoidTmv() && f == VoidFvp()
  {
  }
}
