/** Views of the flat buffers a polyhedron keeps for ODE: the triangle index
    list read three entries at a time, the polygon records (a corner count
    followed by the corners) that the convex geometry reads, and the directed
    edges of the triangles, with what it means for them to form a closed,
    consistently wound surface. */
module FlatMesh {

  datatype Option<T> = None | Some(value: T)

  /** One triangle: three vertex indices in winding order. */
  datatype Tri = Tri(a: int, b: int, c: int)

  /** A directed edge between two vertex indices. */
  datatype Edge = Edge(from: int, to: int)

  /** The same edge walked the other way. */
  function Reverse(e: Edge): (r: Edge)
  {
    Edge(e.to, e.from)
  }

  /** Every entry of a flat index list names one of `vertexCount` vertices. */
  predicate IndicesInRange(indices: seq<int>, vertexCount: int)
  {
    forall k :: 0 <= k < |indices| ==> 0 <= indices[k] < vertexCount
  }

  /** The flat index list read as triangles, three entries each (a trailing
      partial triangle is not read). */
  function Triangles(indices: seq<int>): (ts: seq<Tri>)
    ensures |ts| == |indices| / 3
    ensures forall t :: 0 <= t < |ts| ==>
      3 * t + 2 < |indices| &&
      ts[t] == Tri(indices[3 * t], indices[3 * t + 1], indices[3 * t + 2])
  {
    if |indices| < 3 then []
    else [Tri(indices[0], indices[1], indices[2])] + Triangles(indices[3..])
  }

  /** The polygon records that describe the same faces as `ts`: record `t`
      is the count 3 followed by the corners of triangle `t`, in order. */
  function PolygonsOf(ts: seq<Tri>): (p: seq<int>)
    ensures |p| == 4 * |ts|
    ensures forall t :: 0 <= t < |ts| ==>
      p[4 * t] == 3 && p[4 * t + 1] == ts[t].a && p[4 * t + 2] == ts[t].b && p[4 * t + 3] == ts[t].c
  {
    if ts == [] then []
    else
      var rest := PolygonsOf(ts[1..]);
      var p := [3, ts[0].a, ts[0].b, ts[0].c] + rest;
      assert forall t :: 1 <= t < |ts| ==> ts[t] == ts[1..][t - 1] && p[4 * t] == rest[4 * (t - 1)];
      p
  }

  /** The polygon records name only existing vertices when the triangle
      indices do. */
  lemma PolygonCornersInRange(indices: seq<int>, vertexCount: int, t: nat)
    requires IndicesInRange(indices, vertexCount)
    requires t < |indices| / 3
    ensures var p := PolygonsOf(Triangles(indices));
      4 * t + 3 < |p| &&
      0 <= p[4 * t + 1] < vertexCount && 0 <= p[4 * t + 2] < vertexCount && 0 <= p[4 * t + 3] < vertexCount
  {
    var ts := Triangles(indices);
    var tri := ts[t];
    assert 3 * t + 2 < |indices| && tri == Tri(indices[3 * t], indices[3 * t + 1], indices[3 * t + 2]);
    assert 0 <= tri.a < vertexCount && 0 <= tri.b < vertexCount && 0 <= tri.c < vertexCount;
    var p := PolygonsOf(ts);
    assert p[4 * t + 1] == tri.a && p[4 * t + 2] == tri.b && p[4 * t + 3] == tri.c;
  }

  /** Reads polygon records back as triangles; fails on a record whose count is
      not 3 or that is cut short. */
  function ParseTrianglePolygons(p: seq<int>): (r: Option<seq<Tri>>)
    ensures r.Some? ==> 4 * |r.value| == |p|
  {
    if p == [] then Some([])
    else if |p| < 4 || p[0] != 3 then None
    else match ParseTrianglePolygons(p[4..])
      case None => None
      case Some(rest) => Some([Tri(p[1], p[2], p[3])] + rest)
  }

  /** Reading the records back gives the triangles they were built from. */
  lemma {:induction false} ParsePolygonsOf(ts: seq<Tri>)
    ensures ParseTrianglePolygons(PolygonsOf(ts)) == Some(ts)
  {
    if ts != [] {
      var p := PolygonsOf(ts);
      assert p[4..] == PolygonsOf(ts[1..]);
      ParsePolygonsOf(ts[1..]);
      assert [ts[0]] + ts[1..] == ts;
    }
  }

  /** Records that parse as triangles are exactly the records of those
      triangles: every count is 3 and the corners follow in order. With
      ParsePolygonsOf, ParseTrianglePolygons(p) == Some(ts) <==> p == PolygonsOf(ts). */
  lemma {:induction false} ParsedPolygonsAreRecords(p: seq<int>, ts: seq<Tri>)
    requires ParseTrianglePolygons(p) == Some(ts)
    ensures p == PolygonsOf(ts)
    decreases |p|
  {
    if p != [] {
      var rest :| ParseTrianglePolygons(p[4..]) == Some(rest);
      assert ts == [Tri(p[1], p[2], p[3])] + rest;
      ParsedPolygonsAreRecords(p[4..], rest);
      assert ts[1..] == rest;
      assert p == p[..4] + p[4..];
    }
  }

  /** The three directed edges of a triangle, following its winding. */
  function TriEdges(t: Tri): (es: seq<Edge>)
  {
    [Edge(t.a, t.b), Edge(t.b, t.c), Edge(t.c, t.a)]
  }

  /** All directed edges of a triangle list: edges 3t, 3t+1, 3t+2 belong to
      triangle t. */
  function Edges(ts: seq<Tri>): (es: seq<Edge>)
    ensures |es| == 3 * |ts|
    ensures forall t, j :: 0 <= t < |ts| && 0 <= j < 3 ==> es[3 * t + j] == TriEdges(ts[t])[j]
  {
    if ts == [] then []
    else
      var rest := Edges(ts[1..]);
      var es := TriEdges(ts[0]) + rest;
      assert forall t :: 1 <= t < |ts| ==> ts[t] == ts[1..][t - 1];
      es
  }

  /** Edge `k` of the list is edge `j` of triangle `t`, with k == 3t + j. */
  lemma EdgeOwner(ts: seq<Tri>, k: int) returns (t: nat, j: nat)
    requires 0 <= k < |Edges(ts)|
    ensures t < |ts| && j < 3 && k == 3 * t + j
    ensures Edges(ts)[k] == TriEdges(ts[t])[j]
  {
    t, j := k / 3, k % 3;
  }

  /** A proper triangle has three distinct corners. */
  predicate Proper(tri: Tri)
  {
    tri.a != tri.b && tri.b != tri.c && tri.c != tri.a
  }

  /** Every triangle has three distinct corners. */
  predicate DistinctCorners(ts: seq<Tri>)
  {
    forall t :: 0 <= t < |ts| ==> Proper(ts[t])
  }

  /** No directed edge occurs twice. */
  predicate EdgesDistinct(es: seq<Edge>)
  {
    forall i, j :: 0 <= i < j < |es| ==> es[i] != es[j]
  }

  /** A closed, consistently wound surface: no directed edge occurs twice, and
      the reverse of every edge occurs too. */
  predicate ClosedConsistentlyWound(ts: seq<Tri>)
  {
    var es := Edges(ts);
    EdgesDistinct(es) && forall k :: 0 <= k < |es| ==> Reverse(es[k]) in es
  }

  /** In a list without repeats, an edge that occurs, occurs exactly once. */
  lemma {:induction false} DistinctOccursOnce(es: seq<Edge>, x: Edge)
    requires EdgesDistinct(es) && x in es
    ensures multiset(es)[x] == 1
  {
    assert es == [es[0]] + es[1..];
    if x == es[0] {
      assert x !in es[1..];
    } else {
      DistinctOccursOnce(es[1..], x);
    }
  }

  /** In a closed, consistently wound surface every directed edge occurs
      exactly once, and so does its reverse. */
  lemma ClosedEdgeOccursOnce(ts: seq<Tri>, k: nat)
    requires ClosedConsistentlyWound(ts) && k < |Edges(ts)|
    ensures multiset(Edges(ts))[Edges(ts)[k]] == 1
    ensures multiset(Edges(ts))[Reverse(Edges(ts)[k])] == 1
  {
    var es := Edges(ts);
    DistinctOccursOnce(es, es[k]);
    DistinctOccursOnce(es, Reverse(es[k]));
  }

  /** No edge of a proper triangle is the reverse of one of its edges. */
  lemma NoReverseWithinTriangle(tri: Tri, i: nat, j: nat)
    requires Proper(tri) && i < 3 && j < 3
    ensures TriEdges(tri)[i] != Reverse(TriEdges(tri)[j])
  {
  }

  /** In a closed, consistently wound surface the reverse of edge `k` occurs. */
  lemma ReverseEdgeOccurs(ts: seq<Tri>, k: nat) returns (p: nat)
    requires ClosedConsistentlyWound(ts) && k < |Edges(ts)|
    ensures p < |Edges(ts)| && Edges(ts)[p] == Reverse(Edges(ts)[k])
  {
    var es := Edges(ts);
    assert Reverse(es[k]) in es;
    p :| 0 <= p < |es| && es[p] == Reverse(es[k]);
  }

  /** In a closed, consistently wound surface of proper triangles, the reverse
      of every edge of triangle `t` lies in a different triangle. */
  lemma ReverseEdgeInOtherTriangle(ts: seq<Tri>, t: nat, j: nat)
    requires ClosedConsistentlyWound(ts) && DistinctCorners(ts)
    requires t < |ts| && j < 3
    ensures exists u, i :: 0 <= u < |ts| && 0 <= i < 3 && u != t && TriEdges(ts[u])[i] == Reverse(TriEdges(ts[t])[j])
  {
    var k := 3 * t + j;
    assert Edges(ts)[k] == TriEdges(ts[t])[j];
    var p := ReverseEdgeOccurs(ts, k);
    var u, i := EdgeOwner(ts, p);
    if u == t {
      NoReverseWithinTriangle(ts[t], i, j);
      assert false;
    }
  }

  /** Edge `e` occurs once in `m`, is not its own reverse, and its reverse
      occurs once too. */
  predicate HasPartner(m: multiset<Edge>, e: Edge)
  {
    m[e] == 1 && Reverse(e) != e && m[Reverse(e)] == 1
  }

  /** A multiset of edges in which every edge is paired with its reverse has
      an even size. */
  lemma {:induction false} PairedEdgesEven(m: multiset<Edge>)
    requires forall e {:trigger HasPartner(m, e)} :: e in m ==> HasPartner(m, e)
    ensures |m| % 2 == 0
    decreases |m|
  {
    if m != multiset{} {
      var e :| e in m;
      assert HasPartner(m, e);
      var pair := multiset{e, Reverse(e)};
      var rest := m - pair;
      assert m == rest + pair;
      forall x | x in rest
        ensures HasPartner(rest, x)
      {
        assert HasPartner(m, x);
        assert x != e && x != Reverse(e);
        assert Reverse(x) != e && Reverse(x) != Reverse(e);
      }
      PairedEdgesEven(rest);
    }
  }

  /** In a closed, consistently wound surface of proper triangles, every edge
      is paired with its reverse. */
  lemma EdgeHasPartner(ts: seq<Tri>, e: Edge)
    requires ClosedConsistentlyWound(ts) && DistinctCorners(ts)
    requires e in multiset(Edges(ts))
    ensures HasPartner(multiset(Edges(ts)), e)
  {
    var es := Edges(ts);
    var k :| 0 <= k < |es| && es[k] == e;
    var t, j := EdgeOwner(ts, k);
    assert Proper(ts[t]);
    NoReverseWithinTriangle(ts[t], j, j);
    ClosedEdgeOccursOnce(ts, k);
  }

  /** A closed, consistently wound surface of proper triangles has an even
      number of triangles: its 3n directed edges pair off with their reverses. */
  lemma ClosedSurfaceHasEvenFaceCount(ts: seq<Tri>)
    requires ClosedConsistentlyWound(ts) && DistinctCorners(ts)
    ensures |ts| % 2 == 0
  {
    var m := multiset(Edges(ts));
    assert forall e {:trigger HasPartner(m, e)} :: e in m ==> HasPartner(m, e) by {
      forall e | e in m
        ensures HasPartner(m, e)
      {
        EdgeHasPartner(ts, e);
      }
    }
    PairedEdgesEven(m);
  }
}
