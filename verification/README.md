# Proofs about the demo engines

The demos under `examples/` carry five pieces of logic that stand on their own between
the GPU calls. This project models them in Dafny, over exact real numbers, and proves
what they are for, or says exactly when they fail at it.

| part | files |
|---|---|
| shadow rays: BVH builder and stack traversal | `Geometry`, `Rays`, `SlabTest`, `BvhTree`, `BvhLayout`, `BvhBuilder`, `ShadowTrace`, `ShadowQuery`, `ShadowGaps` |
| icosphere subdivision and scene merge | `Meshes`, `Subdivision`, `Surfaces`, `Icosahedron`, `SphereShape`, `Icosphere`, `SceneMerge` |
| transform hierarchy and node tree | `Matrices`, `Rotations`, `Inverses`, `Lists`, `Transforms`, `SceneNodes` |
| keyframe interpolants and tracks | `Interpolation`, `Curves`, `Tracks`, `TrackOptimizing`, `SmoothOptimizing`, `TrackTrimming`, `TrimSurvival` |
| base64 decoder | `Base64` |

`dafny verify dfyconfig.toml` checks everything. No proof leans on Dafny's automatic
induction: proofs by induction call themselves, and `{:induction false}` stands on lemmas
where Dafny would otherwise try an induction of its own, also on some that need none.

Code that changes state is imperative here too: `buildBVH`'s node and triangle lists, the
traversal's stack array, the midpoint cache, the transforms' caches and links, the node
tree, the interpolant's cached index and weights, the in-place compaction of a track, the
typed arrays of the merge and of the decoder. Each such method is proved against a
specification function, and the theorems are about those functions.

## What the proofs show

**Shadow rays.** The builder loses and invents no triangle, every record's box is the
tight box of one contiguous run of triangles, leaf ranges tile the triangle array, and the
packed words read back as what was packed. Every inner node is cut in half along the
direction its box is widest in. The walk terminates, stays inside its buffers and its
stack, and never reports a shadow that no triangle casts, whatever the slab test answers.
On the builder's output, for a ray that is not in line with a face of a node box, it
reports a shadow exactly when the ray does not start past the entry faces of the scene's
bounds and hits a triangle the reader can reach. A ray is in line with a face when it does
not move along an axis on which its origin has the coordinate of the face; one whose
direction has no zero component never is, nor one level with no corner of the scene. Both
conditions are findings:

- The builder puts the right child after the whole left subtree; the reader takes the
  record after the left child. They agree exactly for scenes of at most nine triangles.
  For larger scenes the reader only ever sees the preorder prefix that ends at the first
  two consecutive leaves, hence at most nine triangles, and never the root's right half.
  Every mesh of n triangles is answered rightly from outside if and only if n is at most
  nine: from ten on, a flight of n stairs and a ray from above its bounds go wrong.
- A box that holds the ray's origin gives a negative `t_near`, which the walk takes for a
  miss. The slab test itself is exact: it meets a box if and only if some point of the ray
  within range lies in it, and what the sign loses is exactly the boxes that hold the
  origin off their entry faces. Since boxes nest, the scene's bounds alone decide: from
  inside them, off their entry faces, the answer is always "no shadow". Up to nine
  triangles this is the only error.

**Icosphere.** Every level keeps the mesh closed, consistently oriented and free of
doubled faces, with one closed fan of triangles around each vertex, in one piece and
without unused vertices. It adds one vertex for each undirected edge, and leaves 20·4^s
triangles, 10·4^s + 2 vertices and 30·4^s edges, so V − E + F = 2. By the classification
of surfaces, which is not proved here, only a sphere is like that. In space the base
points are those of a regular icosahedron if the ratio is golden: all 60 directed edges
have length 2 and all faces turn outward. If `norm` pushes points along their rays, every
level keeps every face turned outward, also in the result as seen from its centre. Merging
objects puts every triangle at one place, with its own corner points and its owner
recorded, and keeps manifolds manifolds.

**Transforms.** Over any run of setters, `copy`, `reset`, `setWorldPosition`, acyclic
reparenting and reads, every cached world matrix that is not marked dirty equals the
recursive product of the stored local matrices, so that the run cannot be told from one
without caches. That product moves points as the local matrices one after another do:
stretch along the axes, turn by the quaternion, move. The turn is told by cross products,
for unit quaternions by conjugation, and a product of unit quaternions turns by its right
factor and then by its left. Above the threshold of `inverse()` any matrix times its
inverse is the identity. `setWorldPosition` brings the origin where it was told to exactly
if the determinant of the parent's world matrix is not below the threshold of `inverse()`,
or that matrix leaves the target where it is; under a parent scaled to a 3000th it misses.
A move too small to be stored leaves the origin within the parent's spread of 10^-6.
`rotate` in local space changes the stored rotation in place and marks nothing; the caches
survive it exactly if the local matrix was due to be recomputed anyway or does not change,
and a two-step program shows them stale. New transforms and nodes may join at any time.

Over any run of adding and removing nodes and of the operations of the runs above, the node
tree keeps parents and children consistent, mirrors the transform tree, and reports the
world matrices of the same steps taken on plain values, with one restriction. Assigning a
transform's parent directly keeps the transform tree in order, but the nodes do not follow:
the two trees mirror each other afterwards exactly if nothing moved, or if neither the
transform nor its new parent belongs to a node. A run may contain the assignments that meet
this condition; two new nodes show what any other does.

**Keyframes.** From any cached index the search finds the number of keys at or before the
time, and the result does not depend on the cache. The cubic interpolant's stored weights
are always those of the interval in use, and its result is a number exactly if the
neighbouring keys it divides by differ, NaN otherwise. Its pieces are Hermite cubics whose
slopes agree where they meet, and with both ends wrapping around a loop closes smoothly.
Findings:

- `ZeroSlopeEnding` levels the curve at the first key but leaves half the last slope at the
  last one, because the made-up neighbour there takes the wrong sample.
- `optimize` leaves the curve as it was, whatever the samples, exactly if all key times
  differ or all are equal (linear), or if times differ up to the last one (discrete). A
  smooth curve survives exactly if there are at most two keys, or all times differ, or at
  least three keys share the first time and either all times differ after it, or there are
  at most two different times, or at most three and the end wraps around; otherwise values
  appear where there were none, or change. Tracks that `validate` accepts may violate this.
- For all but smooth tracks, an inner key stays only if it differs from a neighbour, so a
  constant track shrinks to two keys.
- `trim` leaves the value at a time as it was, whatever the samples, exactly where the
  condition TrimSurvival.CutKeeps on the times says so: for a cubic curve the neighbours of
  the interval must be kept too, unless the time is that of the key the interval starts at.

**Base64.** Decoding undoes the encoding of section 4 of RFC 4648, and encoding the decoded
bytes gives the text back exactly for canonical texts. The loop stores as many bytes as
were allocated, or one more, which is lost, if the stripped length is 1 modulo 4.

## Model

| member | source | states |
|---|---|---|
| Rays.SlabAdmits | examples/threejs-rt-shadows.js:11959-11968 | a ray point in the box within range makes the slab test take its last return, with t_near at most that parameter, whatever its sign |
| Rays.EntersIffMeetsFromOutside | examples/threejs-rt-shadows.js:11996 | reading the slab answer as a sign loses exactly the boxes the ray starts inside |
| SlabTest.MeetsIffPoint | examples/threejs-rt-shadows.js:11959-11968 | up to the sign of its answer the slab test is exact: it meets a box if and only if some point of the ray within range lies in it |
| SlabTest.EntryIsFirstPoint | examples/threejs-rt-shadows.js:11959-11968 | an entered box is entered at the parameter returned and not before |
| SlabTest.MissedIffOriginInside | examples/threejs-rt-shadows.js:11967-11996 | the boxes met but skipped are exactly those that hold the origin off their entry faces; along an axis the ray does not move on, off the lower face |
| Rays.TriangleHitIsReal | examples/threejs-rt-shadows.js:11970-11985 | an accepted parameter exceeds EPS and is a point of the ray with barycentric weights of the triangle |
| Rays.TriangleTestComplete | examples/threejs-rt-shadows.js:11970-11985 | every transversal intersection beyond EPS is returned as itself |
| Rays.HitsIffMeets | examples/threejs-rt-shadows.js:11970-12001 | a triangle is hit in range exactly if the ray meets it at some parameter above 10^-5 and below its limit, not along its plane |
| Rays.MissIsMinusOne | examples/threejs-rt-shadows.js:11959-11985 | both tests answer −1 for a miss |
| Rays.HullInBox | examples/threejs-rt-shadows.js:11763-11775 | a triangle lies in any box that holds its corners |
| Rays.PruningAdmissible | examples/threejs-rt-shadows.js:11959-11985 | a triangle hit in range lies only in boxes the slab test meets, so only starting inside turns the ray away |
| BvhTree.BoundsAreTight | examples/threejs-rt-shadows.js:11763-11775 | the folded bounds hold every corner and every face of the box touches one |
| BvhTree.TightIsUnique | examples/threejs-rt-shadows.js:11763-11775 | there is only one tight box, and the order of the triangles does not matter |
| BvhTree.SortBySpec | examples/threejs-rt-shadows.js:11802 | the sort is an ascending permutation |
| BvhTree.SortIsStable | examples/threejs-rt-shadows.js:11802 | triangles with equal keys keep their order |
| BvhTree.StableSortIsUnique | examples/threejs-rt-shadows.js:11802 | any ascending stable arrangement is the one modelled |
| BvhTree.Split | examples/threejs-rt-shadows.js:11795-11808 | the two halves are the triangles of the node, cut at the median of the centroid order along the first of the axes in which the bounds are widest, the smaller keys on the left |
| BvhTree.LongestIsWidest | examples/threejs-rt-shadows.js:11796-11801 | the axis chosen is the first one in which the bounds of the node are widest |
| BvhTree.BuildPermutes | examples/threejs-rt-shadows.js:11776-11811 | the ordered triangles are a permutation of the input |
| BvhTree.BuildIsTight | examples/threejs-rt-shadows.js:11763-11811 | every box is tight for the triangles below it and lies in its parent's box |
| BvhTree.BuildHalves | examples/threejs-rt-shadows.js:11795-11808 | every inner node of the tree is cut in half at the median along an axis in which its own box is widest |
| BvhTree.LeafSizes | examples/threejs-rt-shadows.js:11790-11808 | from two triangles on, every leaf holds two to four |
| BvhTree.DepthIsLogarithmic | examples/threejs-rt-shadows.js:11790-11808 | the depth is at most D exactly when there are at most 4·2^D triangles |
| BvhLayout.HoldsSubtree | examples/threejs-rt-shadows.js:11776-11811 | every record index is the root of the subtree with that preorder number, held by the arrays there |
| BvhLayout.NodeDescribesRun | examples/threejs-rt-shadows.js:11776-11811 | each record stands for one contiguous run of triangles and has its tight box; count 0 marks exactly the inner ones |
| BvhLayout.InnerNodeSplitsRun | examples/threejs-rt-shadows.js:11806-11808 | an inner record's run is split between its left child at i + 1 and the child after the left subtree, whose boxes lie in its own |
| BvhLayout.BuiltCounts | examples/threejs-rt-shadows.js:11842 | triangles are conserved and there are 2·leaves − 1 records |
| BvhLayout.LeafRangesTile | examples/threejs-rt-shadows.js:11790-11794 | every triangle slot belongs to exactly one leaf range, and no range goes beyond |
| BvhLayout.AdjacentIffNine | examples/threejs-rt-shadows.js:11795-11808 | every left child is a leaf exactly for at most nine triangles |
| BvhLayout.LayoutMatchesIffNine | examples/threejs-rt-shadows.js:12003-12009 | the reader's left + 1 is the right child of every inner record exactly for at most nine triangles |
| BvhBuilder.LoadTriangles | examples/threejs-rt-shadows.js:11746-11760 | the loop loads the scene that SceneReads describes |
| BvhBuilder.SceneReads | examples/threejs-rt-shadows.js:11746-11760 | corner k of triangle i has the numbers of the vertex that entry 3i + k of the index list names; its centroid is the mean of its corners and its number is i |
| BvhBuilder.ComputeBounds | examples/threejs-rt-shadows.js:11763-11775 | the nested min/max loops compute the bounds function |
| BvhBuilder.Halves | examples/threejs-rt-shadows.js:11802-11807 | the halves are non-empty and smaller, so the fallbacks are never taken, and lie apart along the axis the bounds are widest in |
| BvhBuilder.Builder.BuildNode | examples/threejs-rt-shadows.js:11776-11811 | pushing and patching records appends the preorder records of the tree, and its triangles in leaf order |
| BvhBuilder.RecordRoundTrip | examples/threejs-rt-shadows.js:11813-11825 | a packed record reads back as itself exactly when its two numbers fit in 32 bits |
| BvhBuilder.FaceRoundTrip | examples/threejs-rt-shadows.js:11826-11841 | a packed triangle reads back as itself |
| BvhBuilder.RecordWords | examples/threejs-rt-shadows.js:11943 | each field of a packed record is in the word where the shader's struct has it |
| BvhBuilder.FaceWords | examples/threejs-rt-shadows.js:11944 | coordinate m of corner k of a packed triangle is word 4k + m, the words between are zero |
| BvhBuilder.PackNodes | examples/threejs-rt-shadows.js:11813-11825 | every record is packed into its own eight words |
| BvhBuilder.PackTriangles | examples/threejs-rt-shadows.js:11826-11841 | every triangle is packed into its own twelve words |
| BvhBuilder.FieldsFit | examples/threejs-rt-shadows.js:11776-11811 | the two numbers of every record are bounded by the counts, so they fit when the counts do |
| BvhBuilder.BuildBvh | examples/threejs-rt-shadows.js:11745-11843 | the two buffers, decoded, are the preorder records and the leaf-ordered triangles of the tree |
| ShadowTrace.KidsWeighLess | examples/threejs-rt-shadows.js:11993-12010 | replacing a record by two later ones lowers the termination measure |
| ShadowTrace.AccountsExpand | examples/threejs-rt-shadows.js:12003-12009 | pushing both children keeps the stack accounting for the answer, and a full stack means too long a path |
| ShadowTrace.TestLeaf | examples/threejs-rt-shadows.js:11998-12002 | the leaf loop answers whether some triangle of the leaf is hit in range |
| ShadowTrace.TraceShadow | examples/threejs-rt-shadows.js:11987-12013 | on any well-formed arrays and for any ray the walk ends, stays in bounds and reports only real hits; with paths of at most 31 steps the answer is exact for the boxes entered |
| ShadowTrace.PruningIsTheSign | examples/threejs-rt-shadows.js:11996 | for a triangle that is hit, all boxes on a path are entered exactly if the ray starts inside none of them |
| ShadowTrace.AnswerIsTheSign | examples/threejs-rt-shadows.js:11987-12013 | the walk finds something exactly when a hit triangle has a path through boxes the ray starts outside of |
| ShadowTrace.CompleteFromOutside | examples/threejs-rt-shadows.js:11987-12013 | outside all boxes it meets, the walk answers brute force over the reader's tree |
| ShadowQuery.ReaderFinds | examples/threejs-rt-shadows.js:12003-12009 | below a built tree the reader's paths reach exactly the first ReadCount triangles |
| ShadowQuery.ReaderHeight | examples/threejs-rt-shadows.js:12003-12009 | the reader's paths are no longer than the tree is deep |
| ShadowQuery.ReaderPrefix | examples/threejs-rt-shadows.js:12003-12009 | the records the reader can reach are a prefix of the preorder |
| ShadowQuery.PrefixEndsAtLeafPair | examples/threejs-rt-shadows.js:12003-12009 | that prefix ends with the first two consecutive leaves |
| ShadowQuery.ReaderTestsAtMostNine | examples/threejs-rt-shadows.js:11795-11808 | for any scene the reader can reach exactly the first Readable(n) triangles, at most nine |
| ShadowQuery.RightHalfNeverTested | examples/threejs-rt-shadows.js:12003-12009 | with ten or more triangles nothing of the root's right half is reachable |
| ShadowQuery.BuiltIsWellFormed | examples/threejs-rt-shadows.js:11776-11825 | the builder's arrays meet the walk's needs, the empty scene included |
| ShadowQuery.BuiltBoxesHold | examples/threejs-rt-shadows.js:11763-11811 | every box holds the triangles the reader finds below it |
| ShadowQuery.BuiltIsShallow | examples/threejs-rt-shadows.js:11987-12010 | up to 4·2^31 triangles the 32-entry stack drops nothing |
| ShadowQuery.OutsideScene | examples/threejs-rt-shadows.js:11996 | a ray that starts outside the scene's bounds starts outside every box it meets |
| ShadowQuery.StartsInsideWithin | examples/threejs-rt-shadows.js:11996 | a ray that starts past the entry faces of a box starts past those of any box around it |
| ShadowQuery.SignAtTheRoot | examples/threejs-rt-shadows.js:11987-12013 | the scene's bounds alone decide whether a reachable triangle is reached through boxes the ray starts outside of |
| ShadowQuery.AnswerOnScene | examples/threejs-rt-shadows.js:11987-12013 | what the walk finds on the builder's output, told by the scene's bounds and the first Readable(n) ordered triangles only |
| ShadowQuery.ReadableIsScene | examples/threejs-rt-shadows.js:12003-12009 | a reachable hit is a hit of the scene, and up to nine triangles the converse |
| ShadowQuery.HitFromOutside | examples/threejs-rt-shadows.js:11996 | a ray that hits the scene from outside its bounds is not past their entry faces |
| ShadowQuery.OffCornersIsClear | examples/threejs-rt-shadows.js:11959-11992 | a ray that is level with no corner of the scene on an axis it does not move on is in line with no face of a node box |
| ShadowQuery.FoundIsReadable | examples/threejs-rt-shadows.js:11987-12013 | whatever the slab test answers, what the walk finds is a hit of a reachable triangle of the scene |
| ShadowQuery.AnswerIsExact | examples/threejs-rt-shadows.js:11987-12013 | for a ray in line with no face of a node box: a shadow exactly when a reachable triangle is hit and the ray does not start past the entry faces of the scene's bounds; hence exactly when the answer is right, and brute force for up to nine triangles but for that start |
| ShadowQuery.Shadow | examples/threejs-rt-shadows.js:11987-12013 | on the builder's output: for any ray never a shadow but of a reachable triangle of the scene; for a ray in line with no face of a node box the exact answer of AnswerIsExact |
| ShadowQuery.SceneHitIsMeshHit | examples/threejs-rt-shadows.js:11746-11760 | hitting the loaded scene is hitting a triangle whose corners are the numbers of the vertices named |
| ShadowQuery.CastShadow | examples/threejs-rt-shadows.js:11745-12013 | the same from vertex and index arrays through the packed words, for up to 2^30 triangles: never a shadow but of a triangle with the corners the mesh gives it, and the exact answer |
| ShadowGaps.OrderKept | examples/threejs-rt-shadows.js:11795-11808 | a scene in order on every axis is not reordered |
| ShadowGaps.LayoutGap | examples/threejs-rt-shadows.js:12005 | for every n from ten on, a scene of n triangles and a ray from outside its bounds that hits one, which the walk cannot report |
| ShadowGaps.RightIffNine | examples/threejs-rt-shadows.js:12003-12009 | every mesh of n triangles is answered rightly for every ray that is in line with no face of a node box and does not start past the entry faces of the bounds if and only if n is at most nine |
| ShadowGaps.BlindFromInside | examples/threejs-rt-shadows.js:11967-11996 | a ray that starts past the entry faces of the root box, in line with none of its faces, is always told there is nothing |
| ShadowGaps.SignGap | examples/threejs-rt-shadows.js:11967 | one triangle hit from inside its box and not reported |
| Meshes.UndirectedCount | examples/rt-pathtracer.js:170-175 | a closed oriented mesh has half as many undirected edges as directed ones |
| Icosahedron.BaseIsManifold | examples/rt-pathtracer.js:170-175 | the base table is closed, consistently oriented, without loops or doubled faces, with one fan around each vertex |
| Icosahedron.BaseHasOneFan | examples/rt-pathtracer.js:170-175 | the triangles around each of the twelve vertices turn in one closed fan |
| Icosahedron.BaseIsConnected | examples/rt-pathtracer.js:170-175 | the base table is in one piece |
| Icosahedron.BaseIsSpanning | examples/rt-pathtracer.js:170-175 | all twelve vertices are used |
| SphereShape.BaseIsRegular | examples/rt-pathtracer.js:161-175 | for the golden ratio every base face has three sides of length 2 and turns outward |
| SphereShape.BaseIsRound | examples/rt-pathtracer.js:161-168 | and all twelve points are equally far from the centre |
| SphereShape.HalfwayIsHalfway | examples/rt-pathtracer.js:187 | the midpoint is as far from one end as from the other, in between |
| SphereShape.PartsTurnOutward | examples/rt-pathtracer.js:187-205 | an outward triangle split at its pushed-out midpoints gives four outward ones |
| Subdivision.NewEdge | examples/rt-pathtracer.js:197-201 | where every edge of the four new triangles runs |
| Subdivision.EndsDetermine | examples/rt-pathtracer.js:197-201 | a new edge is known by its two ends |
| Subdivision.PlaceTwin | examples/rt-pathtracer.js:197-201 | every new edge has its reverse, across the old edge or inside the old triangle |
| Subdivision.NewTurn | examples/rt-pathtracer.js:197-201 | where a turn about the origin of each new edge leads |
| Subdivision.OneFanKept | examples/rt-pathtracer.js:177-203 | old vertices keep their fan and every midpoint gets one of six triangles |
| Surfaces.ConnectedKept | examples/rt-pathtracer.js:177-203 | one level keeps the mesh in one piece |
| Surfaces.NumbersFill | examples/rt-pathtracer.js:177-203 | the midpoints of a level take every new number |
| Surfaces.SpanningKept | examples/rt-pathtracer.js:177-203 | one level leaves no vertex unused |
| Subdivision.ManifoldKept | examples/rt-pathtracer.js:177-203 | one level keeps the mesh closed, oriented, simply glued and with one fan around each vertex |
| Subdivision.LevelCounts | examples/rt-pathtracer.js:177-203 | four times the triangles and edges, and one new vertex for each undirected edge |
| Icosphere.Subdivider.GetMidpoint | examples/rt-pathtracer.js:181-195 | the cache gains at most the asked edge, numbers edges one to one from the old vertex count, and places each point halfway, normalised |
| Icosphere.Subdivider.SplitTriangle | examples/rt-shadows.js:191-203 | one triangle's twelve new indices from its three shared midpoints |
| Icosphere.Subdivider.SubdivideOnce | examples/rt-pathtracer.js:177-203 | a whole level is the subdivision numbered by its cache, and old points stay |
| Icosphere.NextMesh | examples/rt-pathtracer.js:177-203 | a level turns the mesh of s levels into that of s + 1: a connected closed oriented surface without unused vertices, counts included |
| Icosphere.OutwardKept | examples/rt-pathtracer.js:177-205 | a level keeps every face turned outward |
| Icosphere.SubdividedOutward | examples/rt-pathtracer.js:161-205 | so any number of levels of the golden icosahedron has only outward faces |
| Icosphere.EulerCharacteristic | examples/rt-pathtracer.js:177-203 | V − E + F = 2 at every level |
| Icosphere.CreateSphere | examples/rt-pathtracer.js:161-214 | the result comes from the base table by the asked number of subdivisions, with the counts of that level; every point is pushed to the radius and moved to the centre, and for the golden ratio every face turns outward from the centre |
| Icosphere.OnTheSphere | examples/rt-pathtracer.js:205-211 | such a point lies on the sphere if normalising gives unit length |
| SceneMerge.Merge | examples/rt-pathtracer.js:245-276 | the three arrays are the concatenated vertices, the rebased indices and the owners |
| SceneMerge.Fronts | examples/rt-shadows.js:236-257 | what the first k objects filled is the front of the final arrays |
| SceneMerge.MergedTriangle | examples/rt-pathtracer.js:262-276 | every merged triangle is a triangle of its recorded owner, corner point by corner point |
| SceneMerge.TriangleMerged | examples/rt-pathtracer.js:262-276 | every triangle of every object appears at its one place |
| SceneMerge.MergeKeepsManifolds | examples/rt-shadows.js:249-257 | closed oriented objects with one fan around each vertex merge into such a mesh |
| Matrices.ProductMovesTwice | examples/simple-mystral-bundle.js:228-254 | moving a point by a product is moving it by one factor after the other |
| Matrices.AffineProduct | examples/simple-mystral-bundle.js:228-254 | products of affine matrices are affine |
| Rotations.RotationTurns | examples/simple-mystral-bundle.js:900-925 | the matrix of any quaternion adds twice w times u × v and twice u × (u × v) to v, u being its vector part |
| Rotations.TurningIsConjugation | examples/simple-mystral-bundle.js:664-671 | for a unit quaternion that is q v q* |
| Rotations.TurningKeepsLength | examples/simple-mystral-bundle.js:900-925 | turning by a unit quaternion keeps lengths |
| Rotations.ProductTurnsTwice | examples/simple-mystral-bundle.js:664-671 | a product of unit quaternions turns by its right factor, then by its left one |
| Rotations.RotationOfProduct | examples/simple-mystral-bundle.js:664-671 | the matrix of a product of unit quaternions is the product of their matrices |
| Rotations.ComposeMoves | examples/simple-mystral-bundle.js:583-602 | a composed matrix stretches along the axes, then turns, then moves |
| Rotations.NearVecIs | examples/simple-mystral-bundle.js:135-137 | vectors count as equal exactly if every coordinate differs by less than 10^-6 |
| Rotations.NearQuatIs | examples/simple-mystral-bundle.js:709-713 | quaternions exactly if all four do from the other or from its opposite, which has the same matrix |
| Inverses.ProductIsIdentity | examples/simple-mystral-bundle.js:289-324 | for any matrix with a determinant of at least 10^-10 in size, matrix times inverse is the identity |
| Inverses.InverseMovesBack | examples/simple-mystral-bundle.js:289-324 | the inverse of an affine matrix above the determinant threshold undoes it on every point |
| Transforms.WorldReadsAncestors | examples/simple-mystral-bundle.js:1046-1056 | a world matrix depends on nothing but the locals and links on the way up |
| Transforms.WorldCarries | examples/simple-mystral-bundle.js:1046-1056 | a world matrix moves a point as the local matrices do one by one |
| Transforms.WorldReaches | examples/simple-mystral-bundle.js:1046-1056 | a world matrix moves every point as the stored positions, rotations and scales on the way up say, without any matrix |
| Transforms.IdentityPlaces | examples/simple-mystral-bundle.js:1194-1199 | the values of reset, which nodes start with, leave every point where it is |
| Transforms.StoredKeepsOthers | examples/simple-mystral-bundle.js:1200-1209 | new local values change world matrices only below the transform |
| Transforms.MovedKeepsOthers | examples/simple-mystral-bundle.js:1063-1077 | reparenting leaves world matrices outside the subtree alone |
| Transforms.MovedWorld | examples/simple-mystral-bundle.js:1063-1077 | after reparenting the world matrix hangs off the new parent's |
| Transforms.Transform.MarkWorldMatrixDirty | examples/simple-mystral-bundle.js:1204-1209 | marks exactly the subtree, and ends |
| Transforms.Transform.MarkDirty | examples/simple-mystral-bundle.js:1200-1203 | marks the local matrix and exactly the subtree |
| Transforms.FlaggedAfterMark | examples/simple-mystral-bundle.js:1200-1209 | flags point downwards: below a stale world matrix all are stale, and a stale local matrix makes its world matrix stale |
| Transforms.CoherentAfterStore | examples/simple-mystral-bundle.js:1200-1209 | marking the subtree is enough to keep every unmarked cache honest after a store |
| Transforms.CoherentAfterMove | examples/simple-mystral-bundle.js:1063-1077 | and after a change of parent |
| Transforms.Transform.SetPosition | examples/simple-mystral-bundle.js:1015-1020 | stores a value that is not nearly equal and keeps the caches coherent |
| Transforms.Transform.SetRotation | examples/simple-mystral-bundle.js:1024-1029 | the same for rotations, equal up to sign |
| Transforms.Transform.SetScale | examples/simple-mystral-bundle.js:1033-1038 | the same for scales |
| Transforms.Transform.Copy | examples/simple-mystral-bundle.js:1181-1187 | stores the other's values and keeps the caches coherent |
| Transforms.Transform.Reset | examples/simple-mystral-bundle.js:1194-1199 | stores the identity values and keeps the caches coherent |
| Transforms.Transform.GetMatrix | examples/simple-mystral-bundle.js:1039-1045 | the cached local matrix is the composed one: it stretches, turns and moves every point by the stored values |
| Transforms.Transform.GetWorldMatrix | examples/simple-mystral-bundle.js:1046-1056 | the cached world matrix is the recursive product, and moves every point as WorldReaches says |
| Transforms.FreshJoins | examples/simple-mystral-bundle.js:1005-1011 | a transform as constructed may join any forest in order and changes no world matrix there |
| Transforms.Create | examples/simple-mystral-bundle.js:1005-1011 | constructing a transform keeps links and caches in order and adds one root |
| Transforms.CreateAll | examples/simple-mystral-bundle.js:1005-1011 | any number of constructed transforms are in order together |
| Transforms.Transform.SetParent | examples/simple-mystral-bundle.js:1063-1077 | moves the subtree, keeps parent and child lists mutually consistent and the caches coherent |
| Transforms.Transform.SetWorldPosition | examples/simple-mystral-bundle.js:1111-1118 | stores the local position that the inverse of the parent's world matrix gives, coherently |
| Transforms.PutInWorldArrives | examples/simple-mystral-bundle.js:1111-1118 | the origin ends up where it was sent exactly if the parent's determinant is at the threshold or above, or its matrix leaves the target alone; if the move is too small to be stored it stays that near |
| Transforms.SmallParentMisses | examples/simple-mystral-bundle.js:300-303 | under an invertible parent scaled to a 3000th the origin lands elsewhere |
| Transforms.Transform.RotateLocal | examples/simple-mystral-bundle.js:1094-1097 | the in-place rotation keeps the caches honest exactly if the local matrix was already marked dirty or does not change |
| Transforms.LocalRotationGoesStale | examples/simple-mystral-bundle.js:1094-1097 | reading the world matrix and then turning half around leaves a stale cache |
| Transforms.Execute | examples/simple-mystral-bundle.js:1015-1118 | every flag-respecting operation refines its cache-free step |
| Transforms.Run | examples/simple-mystral-bundle.js:995-1209 | whole runs answer as if no cache existed, and leave every cache coherent |
| Lists.WithoutInPlace | examples/simple-mystral-bundle.js:1259-1266 | taking a child out of a list moves no other: put back where it was, the list is as before |
| SceneNodes.Node.RemoveChild | examples/simple-mystral-bundle.js:1259-1266 | exactly the listed child is detached, links stay consistent, the transform tree follows |
| SceneNodes.Node.AddChild | examples/simple-mystral-bundle.js:1251-1258 | the child leaves its old parent and is last and once in the new one's list; the transform tree follows |
| SceneNodes.ReaddedWorld | examples/simple-mystral-bundle.js:1251-1258 | the added subtree's world matrix hangs off the new parent's; nothing outside it moves |
| SceneNodes.Node.Traverse | examples/simple-mystral-bundle.js:1267-1274 | ends, and visits the preorder of what is not pruned |
| SceneNodes.TraversalVisits | examples/simple-mystral-bundle.js:1267-1274 | that is exactly the nodes with no pruned ancestor on the way, each once |
| SceneNodes.TraversalOrder | examples/simple-mystral-bundle.js:1267-1274 | a node comes before all below it, and all below one child before all below the next |
| SceneNodes.NodeJoins | examples/simple-mystral-bundle.js:1247-1250 | a node as constructed may join any scene in order |
| SceneNodes.CreateNode | examples/simple-mystral-bundle.js:1247-1250 | constructing a node keeps the scene in order |
| SceneNodes.MirrorAfterReparent | examples/simple-mystral-bundle.js:1063-1077 | after a transform has been given another parent, the two trees mirror each other exactly if neither it nor that parent belongs to a node |
| SceneNodes.AssignParent | examples/simple-mystral-bundle.js:1063-1077 | assigning a node's transform a parent directly keeps the transform tree and its caches in order, and the scene exactly under that condition or if nothing moves |
| SceneNodes.ReparentingSplits | examples/simple-mystral-bundle.js:1063-1077 | two new nodes, the transform of one put under that of the other: the nodes do not follow |
| SceneNodes.ExecuteScene | examples/simple-mystral-bundle.js:1063-1266 | adding, removing and every flag-respecting transform operation refine their steps on plain values and keep the scene in order; of direct parent assignments those that keep the two trees together |
| SceneNodes.RunScene | examples/simple-mystral-bundle.js:1229-1275 | over whole runs of these operations links and reported world matrices are those of the plain steps, and the two trees stay together |
| Interpolation.KeysUpToSplits | examples/threejs-rt-shadows.js:10854-10861 | on ordered keys the count of keys at or before t splits them |
| Interpolation.Interpolant.ScanForward | examples/threejs-rt-shadows.js:10808-10828 | at most two steps forward end at the interval, or leave a range that encloses it, or decline |
| Interpolation.Interpolant.ScanBack | examples/threejs-rt-shadows.js:10829-10851 | at most two steps back end at the interval or leave a range that encloses it |
| Interpolation.Interpolant.Bisect | examples/threejs-rt-shadows.js:10854-10861 | the binary search ends with all keys below at or before t and the rest after it |
| Interpolation.Interpolant.Seek | examples/threejs-rt-shadows.js:10804-10876 | from any cached index the search finds the number of keys at or before t |
| Interpolation.Interpolant.Evaluate | examples/threejs-rt-shadows.js:10801-10878 | leaves the cache at that number and the buffer with the value at t, or with NaN if there is none, whatever the cache was |
| Interpolation.Interpolant.CopySampleValue | examples/threejs-rt-shadows.js:10882-10888 | the buffer holds the sample of the asked key |
| Interpolation.Interpolant.IntervalChanged | examples/threejs-rt-shadows.js:10907-10945 | the stored weights and offsets are those of the interval, made-up neighbours and infinite weights included |
| Interpolation.Interpolant.Interpolate | examples/threejs-rt-shadows.js:10946-10978 | with the weights of the interval stored, the buffer holds the blend at t, or NaN where a weight is infinite |
| Interpolation.KeysDifferIff | examples/threejs-rt-shadows.js:10907-10943 | which neighbouring keys must differ for both weights of an interval to be numbers |
| Interpolation.RealBlend | examples/threejs-rt-shadows.js:10946-10957 | with real weights the code's arithmetic is the real blend |
| Interpolation.InfiniteBlend | examples/threejs-rt-shadows.js:10946-10957 | with an infinite weight it gives NaN at every time of the interval |
| Curves.CurveHitsKeys | examples/threejs-rt-shadows.js:10946-10978 | every kind of curve goes, at every key time with a value, through the sample of the last key at that time |
| Curves.DiscreteHolds | examples/threejs-rt-shadows.js:10882-10888 | between two keys a discrete curve rests at the earlier sample |
| Curves.LinearIsStraight | examples/threejs-rt-shadows.js:10963-10969 | a linear curve rises in proportion to the time since the earlier key |
| Curves.LinearStaysBetween | examples/threejs-rt-shadows.js:10963-10969 | between two keys a linear curve stays between their samples |
| Curves.CubicIsHermite | examples/threejs-rt-shadows.js:10907-10957 | every cubic piece that has a value is the Hermite cubic with slopes that depend on its keys only, so pieces meet smoothly |
| Curves.HermiteTouches | examples/threejs-rt-shadows.js:10946-10957 | a Hermite cubic leaves one end and enters the other along the given slopes |
| Curves.WrapAroundCloses | examples/threejs-rt-shadows.js:10916-10934 | wrapping around both ends closes a loop with one slope |
| Curves.ZeroSlopeAtTheEnd | examples/threejs-rt-shadows.js:10927-10930 | the zero-slope ending is level at the first key, and at the last only if the last two samples are equal |
| Tracks.KeyframeTrack.Validate | examples/threejs-rt-shadows.js:11100-11140 | accepts exactly the tracks with whole samples and ordered times |
| Tracks.KeyframeTrack.Trim | examples/threejs-rt-shadows.js:11079-11099 | keeps the keys from the first not before the start to the last not after the end, or one key |
| Tracks.KeyframeTrack.Optimize | examples/threejs-rt-shadows.js:11141-11188 | the compacted track is the selection of the keys that the rule keeps, judged on the original neighbours; KeptIffNeeded gives the rule |
| Tracks.Compact | examples/threejs-rt-shadows.js:11144-11180 | compaction in place never reads an overwritten neighbour |
| Tracks.KeepsKey | examples/threejs-rt-shadows.js:11145-11162 | the keep test decides the rule of KeptIffNeeded on the original track |
| Tracks.CopyRow | examples/threejs-rt-shadows.js:11163-11171 | one sample over an earlier slot, the others untouched |
| TrackOptimizing.KeptKeysShape | examples/threejs-rt-shadows.js:11141-11188 | the kept keys are the first, the last and those inside that the rule keeps, in order |
| TrackOptimizing.KeptIffNeeded | examples/threejs-rt-shadows.js:11145-11162 | an inner key is kept exactly if no later key shares its time, it is no second key at the first time and, unless the track is smooth, some number of it differs from that of a neighbouring key |
| TrackOptimizing.ConstantShrinks | examples/threejs-rt-shadows.js:11141-11188 | a track that is not smooth and constant keeps at most two keys |
| TrackOptimizing.NoSpareLeft | examples/threejs-rt-shadows.js:11141-11188 | on strictly increasing times every inner key left differs from one left beside it |
| TrackOptimizing.OptimizeKeepsCurve | examples/threejs-rt-shadows.js:11141-11188 | on safe times the curve is the same at every time |
| TrackOptimizing.OptimizeLosesCurve | examples/threejs-rt-shadows.js:11145-11149 | on unsafe times some samples make it differ |
| TrackOptimizing.SurvivesIffSafe | examples/threejs-rt-shadows.js:11141-11188 | the curve survives all samples exactly on safe times |
| TrackOptimizing.SmoothKeepsAll | examples/threejs-rt-shadows.js:11159-11162 | a smooth track with strictly increasing times is left as it is |
| SmoothOptimizing.SmoothKeepsCurve | examples/threejs-rt-shadows.js:11141-11188 | on safe times the smooth outcome, NaN included, is the same at every time |
| SmoothOptimizing.SmoothLosesCurve | examples/threejs-rt-shadows.js:11145-11162 | on unsafe times some samples, one number to a key, make it differ |
| SmoothOptimizing.SmoothSurvivesIffSafe | examples/threejs-rt-shadows.js:11141-11188 | the smooth outcome survives all samples exactly on safe times, equal times included |
| TrackOptimizing.OptimizedTwice | examples/threejs-rt-shadows.js:11141-11188 | on strictly increasing times optimizing twice is optimizing once |
| TrackTrimming.TrimmedRangeIs | examples/threejs-rt-shadows.js:11079-11099 | the keys kept are those within the range; if there are none, the last one before its end, or else the first |
| TrackTrimming.TrimKeepsCurve | examples/threejs-rt-shadows.js:11079-11099 | between the first and last kept key a discrete or linear curve is unchanged |
| TrackTrimming.TrimKeepsCubic | examples/threejs-rt-shadows.js:11079-11099 | a cubic curve is unchanged, NaN included, wherever the keys around the interval are kept or made up at an end that stays an end |
| TrimSurvival.PieceSigns | examples/threejs-rt-shadows.js:10946-10957 | between two keys the signs of a cubic piece's four coefficients, also where a neighbour coincides with an end |
| TrimSurvival.CutKeepsValue | examples/threejs-rt-shadows.js:11079-11099 | where the condition on the times holds, cutting out a range of keys keeps the outcome at t, for all three kinds |
| TrimSurvival.CutLosesValue | examples/threejs-rt-shadows.js:11079-11099 | where it fails, the samples that are 1 at one key and 0 elsewhere show a different outcome |
| TrimSurvival.TrimSurvivesIff | examples/threejs-rt-shadows.js:11079-11099 | trimming keeps the outcome at t whatever the samples exactly under that condition, a single kept key included |
| Base64.TableCodes | examples/pixi-alpha-test.js:6 | the table is 64 different characters without the padding character |
| Base64.SixesAreTheBits | examples/pixi-alpha-test.js:18-22 | the four sextets of the encoding, highest first, are the 24 bits of the three bytes |
| Base64.BuildLookup | examples/pixi-alpha-test.js:7-9 | the lookup array gives every character its place in the table, and 0 to the others |
| Base64.WrittenLength | examples/pixi-alpha-test.js:11-24 | the loop stores the allocated number of bytes, or one more for stripped lengths 1 modulo 4 |
| Base64.Base64ToArrayBuffer | examples/pixi-alpha-test.js:5-26 | the array holds the decoding of the text |
| Base64.DecodeEncode | examples/pixi-alpha-test.js:5-26 | decoding the encoding of any bytes gives them back |
| Base64.EncodeDecode | examples/pixi-alpha-test.js:5-26 | encoding the decoding gives the text back exactly for canonical texts |
| Base64.OrphanDropped | examples/pixi-alpha-test.js:11-24 | a single character left over after whole groups is dropped |

## Left out

- Rounding, NaN and the 32-bit float arrays: numbers are reals (bytes are bytes, record words are 32 bits wide), so nothing is said about float error. Only the cubic weights can be infinite and their blend NaN, with a vanishing divisor taken as plus zero.
- Rays in line with a face of a node box: a zero direction component is taken as plus zero and gives an infinite `1 / d`, but where `0 · ∞` comes up the slab test's answer is a parameter of the ray, of which nothing is assumed; exact answers are then not claimed.
- Index lists that name vertices that do not exist: `buildBVH` would compute with undefined there, and BvhBuilder.LoadTriangles requires them not to.
- The node record as an aliased object: `buildBVH` patches the object it pushed; here the record in the list is replaced by the patched one.
- `Array.sort` itself: the model uses the one stable ascending order, and StableSortIsUnique shows any such sort gives it.
- Normalisation and the golden ratio: `norm` is a parameter of the icosphere and of the local rotation, and so is the ratio; square roots are not modelled.
- Text keys of the midpoint cache: a pair of vertex numbers stands for the joined string.
- Object identity of vectors and quaternions: they are values here, so writing to `position` or `rotation` of a transform from outside (as `main` does at lines 1757 and 1768 of the bundle) is not an operation of the model; RotateLocal covers the one place where the class does it itself.
- Transforms.Transform.SetParent: requires that the new parent is not below the transform; otherwise marking dirty would not end.
- SceneNodes.Node.AddChild: requires the same of the node added.
- SceneNodes.RunScene: of direct assignments of a transform's parent it takes only those that keep the two trees together; AssignParent says what the others leave.
- SceneNodes.Node.Traverse: the callback is a function from nodes to whether to go on, so it cannot change the tree while it is walked.
- Transforms.Run: transforms are made before a run or between runs, by Create; an operation inside a run names transforms that are there.
- `translate`, `lookAt`, `setWorldRotation`, `setWorldScale`, the world getters and direction vectors: they go through the setters or read a decomposed world matrix, and would add easy members.
- Camera.lookAt: it calls a method the bundle does not define.
- Interpolant subclasses: one class with a kind stands for the three, and settings are fixed when it is made.
- Interpolation.Interpolant.Seek: one method for the search, with the two scans and the bisection as methods of their own, instead of nested labelled blocks in `evaluate`; array lengths are assumed below 2^31, where the unsigned shift is halving.
- Tracks.KeyframeTrack.Validate: reals are never NaN, so the two NaN tests and the messages have no counterpart.
- Other members of `KeyframeTrack`: `shift`, `scale`, `clone` and the choice of interpolation are not modelled.
- TrackOptimizing.OptimizedTwice: stated for strictly increasing times; with equal times a second pass may drop more.
- TrackTrimming.TrimKeepsCurve: says nothing if no key is in range, when a single key is kept; TrimSurvival.TrimSurvivesIff does.
- Base64.Base64ToArrayBuffer: a character is one code unit; text lengths are assumed below 2^29, where the product by three does not overflow.
- SceneMerge.Merge: vertex numbers are assumed to fit in 32 bits, and objects to hold whole points and triangles.
- GPU, canvas, audio, input and file calls, the shader code around the ray tests, and everything else of three.js.
