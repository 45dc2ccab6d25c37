// Scenes on which the shader misses a triangle it should see: stairs of ten steps and
// more, where the right child is read from the wrong place, and one triangle seen from
// inside its bounding box.
module ShadowGaps {
  import opened Geometry
  import opened Rays
  import opened BvhTree
  import opened BvhLayout
  import opened BvhBuilder
  import opened ShadowTrace
  import opened ShadowQuery

  // ------------------------------------------------------------- a flight of stairs

  // Step i at height 10 i, with its right angle on the diagonal.
  function StepTriangle(i: nat): Tri {
    var c := 10.0 * i as real;
    Tri(Vec3(c, c, c), Vec3(c + 1.0, c, c), Vec3(c, c + 1.0, c), Vec3(c + 1.0 / 3.0, c + 1.0 / 3.0, c), i)
  }

  function Stairs(n: nat): (s: seq<Tri>)
    ensures |s| == n
  {
    seq(n, i requires 0 <= i < n => StepTriangle(i))
  }

  // Such a ray is in line with no face.
  predicate Slanted(ray: Ray) {
    ray.d.x != 0.0 && ray.d.y != 0.0 && ray.d.z != 0.0
  }

  lemma SlantedIsClear(ray: Ray, box: Box)
    requires Slanted(ray)
    ensures Clear(ray, box)
  {
  }

  lemma SlantedIsClearOfAll(nodes: seq<Record>, ray: Ray)
    requires Slanted(ray)
    ensures ClearOfAll(nodes, ray)
  {
    hide Clear, Slanted;
    forall i | 0 <= i < |nodes|
      ensures Clear(ray, nodes[i].box)
    {
      SlantedIsClear(ray, nodes[i].box);
    }
  }

  // From just above the last of n steps, down on it and no further.
  function Down(n: nat): (ray: Ray)
    requires n > 0
    ensures Slanted(ray)
  {
    var c := 10.0 * (n - 1) as real;
    Ray(Vec3(c - 0.25, c - 0.25, c + 1.0), Vec3(0.5, 0.5, -1.0), 2.0, _ => PosInf)
  }

  lemma {:induction false} SortedStays(s: seq<Tri>, axis: Axis)
    requires Ascending(s, axis)
    ensures SortBy(s, axis) == s
  {
    if s != [] {
      var n := |s| - 1;
      SortedStays(s[..n], axis);
      assert n > 0 ==> s[..n][n - 1].centroid.At(axis) <= s[n].centroid.At(axis);
      assert InsertBy(s[..n], s[n], axis) == s[..n] + [s[n]] == s;
    }
  }

  ghost predicate AscendingEverywhere(s: seq<Tri>) {
    forall axis: Axis :: Ascending(s, axis)
  }

  lemma AscendingHalves(s: seq<Tri>, m: nat)
    requires AscendingEverywhere(s) && m <= |s|
    ensures AscendingEverywhere(s[..m]) && AscendingEverywhere(s[m..])
  {
    forall a: Axis
      ensures Ascending(s[..m], a) && Ascending(s[m..], a)
    {
      assert Ascending(s, a);
    }
  }

  lemma LeafOrder(s: seq<Tri>)
    requires |s| <= MAX_LEAF_SIZE
    ensures Ordered(BuildTree(s)) == s
  {
    hide Bounds;
  }

  lemma AscendingOn(s: seq<Tri>, axis: Axis)
    requires AscendingEverywhere(s)
    ensures Ascending(s, axis)
  {
  }

  // A scene already in order on every axis is not reordered.
  lemma {:induction false} OrderKept(s: seq<Tri>)
    requires AscendingEverywhere(s)
    ensures Ordered(BuildTree(s)) == s
    decreases |s|
  {
    hide Bounds, LongestAxis, SortBy, BuildTree, AscendingEverywhere, Ascending;
    if |s| > MAX_LEAF_SIZE {
      var axis, m := LongestAxis(Bounds(s)), |s| / 2;
      AscendingOn(s, axis);
      BuildInner(s);
      SortedStays(s, axis);
      AscendingHalves(s, m);
      OrderKept(s[..m]);
      OrderKept(s[m..]);
      assert s == s[..m] + s[m..];
    } else {
      LeafOrder(s);
    }
  }

  lemma StairsAscend(n: nat)
    ensures AscendingEverywhere(Stairs(n))
  {
  }

  lemma MeetsBy(ray: Ray, f: Face, t: real, u: real, v: real)
    requires Weights(u, v) && PointAt(ray, t) == Barycentric(f, u, v)
    ensures Meets(ray, f, t)
  {
    hide Weights, PointAt, Barycentric;
  }

  function StepFace(c: real): Face {
    Face(Vec3(c, c, c), Vec3(c + 1.0, c, c), Vec3(c, c + 1.0, c))
  }

  lemma Fold(a: real, b: real, c: real, u: real, r: real)
    requires r == a + u * (b + c - a - a)
    ensures Mix(a, b, c, u, u) == r
  {
  }

  lemma LastStepPoint(n: nat, c: real)
    requires n > 0 && c == 10.0 * (n - 1) as real
    ensures PointAt(Down(n), 1.0) == Barycentric(StepFace(c), 0.25, 0.25)
    ensures Weights(0.25, 0.25)
  {
    hide Mix, Barycentric;
    BarycentricMixes(StepFace(c), 0.25, 0.25);
    Fold(c, c + 1.0, c, 0.25, c + 0.25);
    Fold(c, c, c + 1.0, 0.25, c + 0.25);
    Fold(c, c, c, 0.25, c);
  }

  lemma LastStepMeets(n: nat)
    requires n > 0
    ensures Meets(Down(n), StepTriangle(n - 1).Face(), 1.0)
  {
    var c := 10.0 * (n - 1) as real;
    LastStepPoint(n, c);
    MeetsBy(Down(n), StepFace(c), 1.0, 0.25, 0.25);
  }

  lemma StepCrosses(c: real, d: Vec3)
    requires d == Vec3(0.5, 0.5, -1.0)
    ensures Transversal(d, StepFace(c))
  {
    var f := StepFace(c);
    assert Sub(f.v1, f.v0) == Vec3(1.0, 0.0, 0.0) && Sub(f.v2, f.v0) == Vec3(0.0, 1.0, 0.0);
    assert Cross(d, Vec3(0.0, 1.0, 0.0)) == Vec3(1.0, 0.0, 0.5);
  }

  lemma LastStepIsHit(n: nat)
    requires n > 0
    ensures Hits(Down(n), StepTriangle(n - 1).Face())
  {
    hide IntersectTri, Meets, Transversal;
    var c := 10.0 * (n - 1) as real;
    LastStepMeets(n);
    StepCrosses(c, Down(n).d);
    assert StepTriangle(n - 1).Face() == StepFace(c);
    TriangleTestComplete(Down(n), StepFace(c), 1.0);
  }

  // The ray is at the height of step k only at one parameter.
  lemma StepHeight(n: nat, k: nat, t: real, u: real, v: real)
    requires n > 0 && PointAt(Down(n), t) == Barycentric(StepTriangle(k).Face(), u, v)
    ensures t == 10.0 * (n - 1) as real + 1.0 - 10.0 * k as real
  {
    assert PointAt(Down(n), t).z == 10.0 * (n - 1) as real + 1.0 - t;
    assert Barycentric(StepTriangle(k).Face(), u, v).z == 10.0 * k as real;
  }

  lemma OtherStepsAreOutOfRange(n: nat, k: nat)
    requires k + 1 < n
    ensures !Hits(Down(n), StepTriangle(k).Face())
  {
    hide StepTriangle, IntersectTri, PointAt, Barycentric;
    var f, ray := StepTriangle(k).Face(), Down(n);
    if Hits(ray, f) {
      TriangleHitIsReal(ray, f);
      var t := IntersectTri(ray.o, ray.d, f);
      var u: real, v: real :| Weights(u, v) && PointAt(ray, t) == Barycentric(f, u, v);
      StepHeight(n, k, t, u, v);
      assert false;
    }
  }

  lemma StepLevel(n: nat, t: Tri, k: Axis)
    requires t in Stairs(n)
    ensures t.Face().Corner(k).z <= 10.0 * (n - 1) as real
  {
    var i :| 0 <= i < n && Stairs(n)[i] == t;
  }

  // No step is higher than the last one, and the ray starts above that.
  lemma StartsAbove(n: nat)
    requires n > 0
    ensures !InBox(Bounds(Stairs(n)), Down(n).o)
  {
    hide Bounds, StepTriangle;
    var scene, z: Axis := Stairs(n), 2;
    var hi := Bounds(scene).hi.At(z);
    BoundsAreTight(scene);
    assert Attained(scene, z, hi);
    var t, k: Axis :| t in scene && hi == Fin(t.Face().Corner(k).At(z));
    StepLevel(n, t, k);
    assert !Le(Fin(Down(n).o.At(z)), hi);
  }

  lemma StairsHit(n: nat)
    requires n > 0
    ensures SceneHit(Stairs(n), Down(n))
  {
    LastStepIsHit(n);
    assert Stairs(n)[n - 1] == StepTriangle(n - 1);
  }

  lemma StairsUnreadable(n: nat)
    requires n >= 10
    ensures !ReadableHit(Stairs(n), Down(n))
  {
    hide StepTriangle, Hits, Readable;
    assert Readable(n) <= n / 2;
    forall k: nat | k < Readable(n)
      ensures !Hits(Down(n), Stairs(n)[k].Face())
    {
      OtherStepsAreOutOfRange(n, k);
    }
  }

  lemma BuiltOrder(nodes: seq<Record>, ordered: seq<Tri>, scene: seq<Tri>)
    requires BuiltFrom(nodes, ordered, scene)
    ensures ordered == Ordered(BuildTree(scene))
  {
  }

  // From ten steps on, a ray that starts outside the bounds hits the last one, and the
  // shader cannot report it.
  lemma LayoutGap(nodes: seq<Record>, ordered: seq<Tri>, n: nat)
    requires n >= 10 && BuiltFrom(nodes, ordered, Stairs(n))
    ensures SceneHit(Stairs(n), Down(n)) && !InBox(Bounds(Stairs(n)), Down(n).o)
    ensures nodes != [] && !HitThrough(nodes, FacesOf(ordered), Down(n), Entered(nodes, Down(n)), 0)
  {
    hide *;
    StartsAbove(n);
    StairsHit(n);
    StairsAscend(n);
    BuiltOrder(nodes, ordered, Stairs(n));
    OrderKept(Stairs(n));
    StairsUnreadable(n);
    SlantedIsClearOfAll(nodes, Down(n));
    AnswerOnScene(nodes, ordered, Stairs(n), Down(n));
  }

  // ------------------------------------- how many triangles the layout is good for

  // The stairs as buildBVH is given them: three vertices of its own for every step.
  function StairsVertices(n: nat): seq<real> {
    seq(9 * n, j requires 0 <= j < 9 * n => StepFace(10.0 * (j / 9) as real).Corner(j % 9 / 3).At(j % 3))
  }

  function StairsIndices(n: nat): seq<nat> {
    seq(3 * n, j requires 0 <= j < 3 * n => j)
  }

  lemma WhichNumber(i: nat, k: Axis, m: Axis)
    ensures var j := 3 * (3 * i + k) + m; j / 9 == i && j % 9 / 3 == k && j % 3 == m
  {
    var j := 3 * (3 * i + k) + m;
    assert j == 9 * i + (3 * k + m) && 0 <= 3 * k + m < 9;
    assert j / 9 == i;
  }

  lemma StairsNumber(n: nat, i: nat, k: Axis, m: Axis)
    requires i < n
    ensures 3 * (3 * i + k) + m < |StairsVertices(n)|
    ensures StairsVertices(n)[3 * (3 * i + k) + m] == StepFace(10.0 * i as real).Corner(k).At(m)
  {
    hide StepFace;
    WhichNumber(i, k, m);
  }

  lemma StairsVertex(n: nat, i: nat, k: Axis)
    requires i < n
    ensures 3 * (3 * i + k) + 2 < |StairsVertices(n)|
    ensures VertexAt(StairsVertices(n), 3 * i + k) == StepFace(10.0 * i as real).Corner(k)
  {
    hide StairsVertices, StepFace, Face.Corner;
    StairsNumber(n, i, k, 0);
    StairsNumber(n, i, k, 1);
    StairsNumber(n, i, k, 2);
  }

  lemma StairsAreScene(n: nat)
    ensures IndicesInRange(StairsVertices(n), StairsIndices(n)) && |StairsIndices(n)| / 3 == n
    ensures Scene(StairsVertices(n), StairsIndices(n)) == Stairs(n)
  {
    hide StairsVertices;
    var vertices, indices := StairsVertices(n), StairsIndices(n);
    forall j | 0 <= j < |indices|
      ensures 3 * indices[j] + 2 < |vertices|
    {
      StairsVertex(n, j / 3, j % 3);
    }
    forall i | 0 <= i < n
      ensures TriangleAt(vertices, indices, i) == StepTriangle(i)
    {
      StairsVertex(n, i, 0);
      StairsVertex(n, i, 1);
      StairsVertex(n, i, 2);
    }
  }

  ghost predicate Answers(scene: seq<Tri>, ray: Ray) {
    var nodes, ordered := Flatten(BuildTree(scene), 0, 0), Ordered(BuildTree(scene));
    HitThrough(nodes, FacesOf(ordered), ray, Entered(nodes, ray), 0) <==> SceneHit(scene, ray)
  }

  // In line with no face of a node box, and not past the entry faces of the bounds.
  ghost predicate FairRay(scene: seq<Tri>, ray: Ray) {
    ClearOfAll(Flatten(BuildTree(scene), 0, 0), ray) && !StartsInside(ray, Bounds(scene))
  }

  // Every mesh of n triangles is answered rightly for every such ray.
  ghost predicate RightFromOutside(n: nat) {
    forall vertices: seq<real>, indices: seq<nat>, ray: Ray ::
      IndicesInRange(vertices, indices) && |indices| / 3 == n && FairRay(Scene(vertices, indices), ray) ==>
        Answers(Scene(vertices, indices), ray)
  }

  // That is so exactly up to nine triangles.
  lemma RightIffNine(n: nat)
    ensures RightFromOutside(n) <==> n <= 9
  {
    hide BuildTree, Flatten, Bounds, StartsInside, HitThrough, SceneHit, ReadableHit, IndicesInRange, Scene, InBox;
    hide Clear, ClearOfAll, Down;
    if n <= 9 {
      forall vertices: seq<real>, indices: seq<nat>, ray: Ray |
          IndicesInRange(vertices, indices) && |indices| / 3 == n && FairRay(Scene(vertices, indices), ray)
        ensures Answers(Scene(vertices, indices), ray)
      {
        var scene := Scene(vertices, indices);
        var nodes, ordered := Flatten(BuildTree(scene), 0, 0), Ordered(BuildTree(scene));
        AnswerOnScene(nodes, ordered, scene, ray);
        ReadableIsScene(nodes, ordered, scene, ray);
      }
    } else {
      var t := BuildTree(Stairs(n));
      StairsAreScene(n);
      LayoutGap(Flatten(t, 0, 0), Ordered(t), n);
      SlantedIsClear(Down(n), Bounds(Stairs(n)));
      SlantedIsClearOfAll(Flatten(t, 0, 0), Down(n));
      HitFromOutside(Stairs(n), Down(n));
      assert !Answers(Scene(StairsVertices(n), StairsIndices(n)), Down(n));
    }
  }

  // ------------------------------------------------- one triangle, seen from inside

  const LEAN := Tri(Vec3(0.0, 0.0, 0.0), Vec3(4.0, 0.0, 4.0), Vec3(0.0, 4.0, 4.0),
                    Vec3(4.0 / 3.0, 4.0 / 3.0, 8.0 / 3.0), 0)
  const UP := Ray(Vec3(1.0, 1.0, 1.0), Vec3(0.1, 0.1, 1.0), 10.0, _ => PosInf)

  lemma UpSlants()
    ensures Slanted(UP)
  {
  }

  // A ray that starts inside the root box is always told there is nothing.
  lemma BlindFromInside(nodes: seq<Record>, faces: seq<Face>, ray: Ray)
    requires nodes != [] && Clear(ray, nodes[0].box) && StartsInside(ray, nodes[0].box)
    ensures !HitThrough(nodes, faces, ray, Entered(nodes, ray), 0)
  {
    EntersIffMeetsFromOutside(ray, nodes[0].box);
    assert !Entered(nodes, ray)[0];
  }

  const CUBE := Box(Ext3(Fin(0.0), Fin(0.0), Fin(0.0)), Ext3(Fin(4.0), Fin(4.0), Fin(4.0)))

  lemma One(t: Tri)
    ensures |[t]| == 1 <= MAX_LEAF_SIZE && [t][0] == t
  {
  }

  lemma LeafRecord(nodes: seq<Record>, ordered: seq<Tri>, tris: seq<Tri>)
    requires BuiltFrom(nodes, ordered, tris) && |tris| <= MAX_LEAF_SIZE
    ensures nodes == [Record(Bounds(tris), 0, |tris|)]
  {
    hide Bounds;
  }

  lemma LeanFace()
    ensures LEAN.Face() == Face(Vec3(0.0, 0.0, 0.0), Vec3(4.0, 0.0, 4.0), Vec3(0.0, 4.0, 4.0))
  {
  }

  lemma LeanPoint()
    ensures PointAt(UP, 1.25)
         == Barycentric(Face(Vec3(0.0, 0.0, 0.0), Vec3(4.0, 0.0, 4.0), Vec3(0.0, 4.0, 4.0)), 0.28125, 0.28125)
    ensures Weights(0.28125, 0.28125)
  {
    hide Mix, Barycentric;
    BarycentricMixes(Face(Vec3(0.0, 0.0, 0.0), Vec3(4.0, 0.0, 4.0), Vec3(0.0, 4.0, 4.0)), 0.28125, 0.28125);
    Fold(0.0, 4.0, 0.0, 0.28125, 1.125);
    Fold(0.0, 0.0, 4.0, 0.28125, 1.125);
    Fold(0.0, 4.0, 4.0, 0.28125, 2.25);
  }

  lemma LeanMeets()
    ensures Meets(UP, LEAN.Face(), 1.25)
  {
    hide *;
    LeanFace();
    LeanPoint();
    MeetsBy(UP, LEAN.Face(), 1.25, 0.28125, 0.28125);
  }

  lemma Determinants()
    ensures Det(0.1, 1.0, 4.0, 4.0) == -3.6 && Det(1.0, 0.1, 4.0, 0.0) == -0.4 && Det(0.1, 0.1, 0.0, 4.0) == 0.4
  {
  }

  lemma LeanCrosses()
    ensures Transversal(UP.d, Face(Vec3(0.0, 0.0, 0.0), Vec3(4.0, 0.0, 4.0), Vec3(0.0, 4.0, 4.0)))
  {
    hide Det;
    assert Det(0.1, 1.0, 4.0, 4.0) == -3.6 && Det(1.0, 0.1, 4.0, 0.0) == -0.4 && Det(0.1, 0.1, 0.0, 4.0) == 0.4 by {
      Determinants();
    }
  }

  lemma LeanIsHit()
    ensures Hits(UP, LEAN.Face())
  {
    hide IntersectTri, Meets, Transversal;
    LeanMeets();
    LeanCrosses();
    LeanFace();
    TriangleTestComplete(UP, LEAN.Face(), 1.25);
  }

  lemma LeanInScene()
    requires Hits(UP, LEAN.Face())
    ensures SceneHit([LEAN], UP)
  {
    hide Hits;
    assert LEAN in [LEAN];
  }

  lemma ThreeCorners(a: Vec3, b: Vec3, c: Vec3, i: Axis)
    ensures Lowest([a, b, c], i) == Min(Min(Fin(a.At(i)), Fin(b.At(i))), Fin(c.At(i)))
    ensures Highest([a, b, c], i) == Max(Max(Fin(a.At(i)), Fin(b.At(i))), Fin(c.At(i)))
  {
    assert [a, b, c][..2] == [a, b] && [a, b][..1] == [a] && [a][..0] == [];
    assert Highest([a][..0], i) == NegInf && Lowest([a][..0], i) == PosInf;
    assert Lowest([a], i) == Fin(a.At(i)) && Highest([a], i) == Fin(a.At(i));
    assert Lowest([a, b], i) == Min(Fin(a.At(i)), Fin(b.At(i)));
    assert Highest([a, b], i) == Max(Fin(a.At(i)), Fin(b.At(i)));
  }

  lemma BoxOfOne()
    ensures Bounds([LEAN]) == CUBE
  {
    var tris := [LEAN];
    assert tris[..0] == [];
    assert Corners(tris) == [LEAN.v0, LEAN.v1, LEAN.v2];
    ThreeCorners(LEAN.v0, LEAN.v1, LEAN.v2, 0);
    ThreeCorners(LEAN.v0, LEAN.v1, LEAN.v2, 1);
    ThreeCorners(LEAN.v0, LEAN.v1, LEAN.v2, 2);
  }

  lemma StartsInCube()
    ensures StartsInside(UP, CUBE)
  {
    assert 1.0 / 0.1 == 10.0;
  }

  lemma SignGap(nodes: seq<Record>, ordered: seq<Tri>)
    requires BuiltFrom(nodes, ordered, [LEAN])
    ensures SceneHit([LEAN], UP)
    ensures nodes != [] && !HitThrough(nodes, FacesOf(ordered), UP, Entered(nodes, UP), 0)
  {
    hide *;
    UpSlants();
    SlantedIsClear(UP, CUBE);
    BoxOfOne();
    StartsInCube();
    One(LEAN);
    LeafRecord(nodes, ordered, [LEAN]);
    LeanIsHit();
    LeanInScene();
    BlindFromInside(nodes, FacesOf(ordered), UP);
  }
}
