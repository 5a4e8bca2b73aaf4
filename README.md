# Polyhedron geometry buffers (C60 physics demo)

This project models the geometry container behind the demo's trimesh and convex
solids: a polyhedron that owns four flat buffers and two native ODE descriptors
built over them.

- `indices` holds the triangle vertex indices, three per triangle.
- `planes` holds the face plane equations, four reals per face.
- `vtx` holds the vertex coordinates, three reals per vertex.
- `polygons` holds one polygon record per face: a corner count, then the corners.
- `tmv` is a trimesh descriptor over `vtx` and `indices`.
- `fvp` is a convex descriptor over `planes`, `vtx` and `polygons`.
- `r` is a scale ratio.

`void()` gives the empty container: empty buffers, the void descriptors (all
counts zero, all pointers null) and ratio 1. `setup()` overwrites the four
buffers with constant tables, whatever they held before, and then builds both
descriptors over the new buffers. The type is called `Dodecahedron`, but the
tables describe four vertices and four triangles, which is a tetrahedron.

Files:

- `polyhedron.dfy` (module `Polyhedron`): the descriptor records `TriMeshVI` and
  `ConvexFVP`, with pointers modelled as "null or into buffer X". It holds
  `void_tmv`, `void_fvp`, the descriptor constructors, and what it means for a
  descriptor to describe a set of buffers.
- `flat_mesh.dfy` (module `FlatMesh`): reading the flat buffers. The index list
  is read as triangles and the polygon records are built from the triangles.
  Records can be parsed back, which is the inverse. It also defines the
  directed edges of a triangle list and what a closed, consistently wound
  surface is, with general lemmas about such surfaces.
- `dodecahedron.dfy` (module `Dodecahedron`): the constant tables and lemmas about
  them. The class `Dodecahedron` has the `Void` constructor and the `Setup`
  method. Both establish `Valid()`: the descriptors describe the object's own
  buffers, and every index names an existing vertex. Both also establish
  `WellFormed()`: the buffer lengths follow their strides, polygon record i is
  triangle i, and the triangles form a closed, consistently wound surface.

## Model

| member | source | states |
|---|---|---|
| `Polyhedron.VoidTmv` | src/polyhedron.rs:15-24 | the empty trimesh descriptor has vertex and index counts 0 and null vertex and index pointers. It describes the empty buffers, and "every index < vtxCount" holds of any index list because it covers no index |
| `Polyhedron.VoidFvp` | src/polyhedron.rs:26-37 | the empty convex descriptor has face and vertex counts 0 and null face, vertex and polygon pointers. It describes the empty buffers |
| `Polyhedron.VoidDescriptorsUnique` | src/polyhedron.rs:18-37 | any descriptor that describes empty buffers through null pointers equals the void one, so the void descriptors are fixed values |
| `Polyhedron.MakeTmv` | src/polyhedron/dodecahedron.rs:70 | the trimesh descriptor built in setup points at `vtx` and `indices`. Its vertex count is the number of whole 3-real vertices and its index count is the index list's length |
| `Polyhedron.MakeFvp` | src/polyhedron/dodecahedron.rs:71 | the convex descriptor points at `planes`, `vtx` and `polygons`. Its face count is the number of whole 4-real planes and its vertex count the number of whole 3-real vertices, the same vertex buffer the trimesh descriptor points at |
| `Polyhedron.WithinVerticesIffInRange` | src/polyhedron/dodecahedron.rs:14-23 | for a trimesh descriptor that describes its buffers, "every index it covers is below its vertex count" holds exactly when every entry of the index buffer names one of the buffer's whole vertices |
| `FlatMesh.Triangles` | src/polyhedron/dodecahedron.rs:14-15 | the flat index list read with stride 3: triangle t is entries 3t, 3t+1, 3t+2, and there are |indices|/3 triangles |
| `FlatMesh.PolygonsOf` | src/polyhedron/dodecahedron.rs:20-21 | the polygon buffer for a triangle list has stride 1 + 3: record t is the count 3 followed by triangle t's corners in order |
| `FlatMesh.ParseTrianglePolygons` | src/polyhedron/dodecahedron.rs:20-21 | reading polygon records back as triangles succeeds only on whole 4-entry records, and then yields one triangle per record |
| `FlatMesh.ParsePolygonsOf` | src/polyhedron/dodecahedron.rs:20-21 | round trip: parsing the polygon records built from a triangle list gives back that list |
| `FlatMesh.ParsedPolygonsAreRecords` | src/polyhedron/dodecahedron.rs:20-21 | the other direction: records that parse as a triangle list are exactly that list's records (every count 3, corners in order), so parsing gives `ts` if and only if the records are `PolygonsOf(ts)` |
| `FlatMesh.PolygonCornersInRange` | src/polyhedron/dodecahedron.rs:20-25 | if every triangle index names an existing vertex, so does every corner in the polygon records the convex descriptor reads |
| `FlatMesh.Edges` | src/polyhedron/dodecahedron.rs:14-15 | the directed edges of a triangle list: edges 3t, 3t+1, 3t+2 are a→b, b→c and c→a of triangle t |
| `FlatMesh.DistinctOccursOnce` | src/polyhedron/dodecahedron.rs:50-54 | in an edge list without repeats, an edge that occurs has multiplicity exactly 1 |
| `FlatMesh.ClosedEdgeOccursOnce` | src/polyhedron/dodecahedron.rs:50-54 | on a closed, consistently wound surface, every directed edge occurs exactly once and its reverse occurs exactly once |
| `FlatMesh.ReverseEdgeInOtherTriangle` | src/polyhedron/dodecahedron.rs:50-54 | on such a surface of proper triangles, the reverse of each edge of triangle t lies in a different triangle |
| `FlatMesh.PairedEdgesEven` | src/polyhedron/dodecahedron.rs:50-54 | a consequence of the closure property, not a promise of the program: a multiset of edges in which each edge is paired with its distinct reverse has even size |
| `FlatMesh.ClosedSurfaceHasEvenFaceCount` | src/polyhedron/dodecahedron.rs:50-54 | a consequence of the closure property, not a promise of the program: a closed, consistently wound surface of proper triangles has an even number of triangles (the table's 4 is one instance) |
| `Dodecahedron.SetupIndices` | src/polyhedron/dodecahedron.rs:50-54 | the installed index table has 4 × 3 entries |
| `Dodecahedron.SetupPlanes` | src/polyhedron/dodecahedron.rs:55-59 | the installed plane table has 4 × 4 entries |
| `Dodecahedron.SetupVtx` | src/polyhedron/dodecahedron.rs:60-64 | the installed vertex table has 4 × 3 entries |
| `Dodecahedron.SetupPolygons` | src/polyhedron/dodecahedron.rs:65-69 | the installed polygon table has 4 × (1 + 3) entries |
| `Dodecahedron.SetupTriangles` | src/polyhedron/dodecahedron.rs:50-54 | the installed index table reads as the four triangles (3,1,0), (3,2,1), (3,0,2), (2,0,1) |
| `Dodecahedron.SetupIndicesInRange` | src/polyhedron/dodecahedron.rs:50-64 | every installed index is below the number of installed vertices (12 / 3 = 4) |
| `Dodecahedron.SetupPolygonsMatchTriangles` | src/polyhedron/dodecahedron.rs:50-69 | the installed polygon records are exactly the records of the installed triangles: count 3, then the same corners in the same order. There is one plane and one record per triangle |
| `Dodecahedron.SetupEdges` | src/polyhedron/dodecahedron.rs:50-54 | the twelve directed edges of the installed triangles, in winding order |
| `Dodecahedron.SetupEdgesDistinct` | src/polyhedron/dodecahedron.rs:50-54 | no directed edge of the installed triangles occurs twice |
| `Dodecahedron.SetupReversesPresent` | src/polyhedron/dodecahedron.rs:50-54 | the reverse of every directed edge of the installed triangles is also one of them |
| `Dodecahedron.SetupCornersDistinct` | src/polyhedron/dodecahedron.rs:50-54 | each installed triangle has three distinct vertices |
| `Dodecahedron.SetupSurfaceClosed` | src/polyhedron/dodecahedron.rs:50-54 | the installed triangles form a closed, consistently wound surface: no directed edge repeats, and each edge's reverse is present |
| `Dodecahedron.Dodecahedron.Void` | src/polyhedron/dodecahedron.rs:33-43 | `void()` gives empty indices, planes, vtx and polygons, the void descriptors and r = 1. The result satisfies the object invariant and is (vacuously) well formed |
| `Dodecahedron.Dodecahedron.Setup` | src/polyhedron/dodecahedron.rs:49-72 | `setup()` makes the four buffers the constant tables, whatever they held before, so a second call leaves the same buffer contents, descriptor counts and r. It then builds both descriptors over the new buffers and leaves r unchanged. Afterwards the descriptors describe the buffers, every index names a vertex, the strides hold, polygon record i is triangle i, and the surface is closed |

## Left out

- src/main.rs is not part of this model. It covers scene creation, the physics loop, rendering, key commands and the pinned-slot registry. Its `setup(0.2, tf)` call targets a `Dodecahedron` from an external crate with a different signature; this model follows the `setup()` defined in src/polyhedron/dodecahedron.rs.
- The mesh generator over many shape kinds, the slot cache and its in-use error, key generation and parsing, the evolution graph, and collision-pair tracking are not part of this model: none of them appears in the modelled files.
- `Polyhedron.MakeTmv`: `trimeshvi::new` belongs to the external ODE binding and is not part of this model. It is modelled by the counts ODE's trimesh builder takes: whole vertices, and the number of indices. Pointers are modelled only by the buffer they point into; addresses, pinning and lifetimes are not modelled.
- `Dodecahedron.Dodecahedron.Setup`: each call allocates four new buffers and drops the old ones, so any native geometry built from descriptors taken before the call is left pointing into freed memory. Pointers are modelled only by the buffer they name, so this reallocation and the dangling descriptors are not modelled; the model's idempotence covers buffer contents, descriptor counts and r only.
- `Polyhedron.MakeFvp`: `convexfvp::new` is external in the same way. It is modelled with face count = whole planes and vertex count = whole vertices.
- The values in `vtx` and `planes` are kept as opaque reals. No claim about normals, outward orientation or plane distances is made, because these are rounded floating-point data.
- The generic ratio `r: F` is modelled as a `real`. Only its value 1 after `void()` and its being left alone by `setup()` are tracked.
- Counts are unbounded naturals. The buffers here have at most 16 entries, so 32-bit truncation of lengths cannot arise; index and polygon entries are typed as 32-bit unsigned values.
- The `Debug` and `Clone` derives, and the rest of the `TBridgeGlobal` trait beyond `void()`, are not modelled.
