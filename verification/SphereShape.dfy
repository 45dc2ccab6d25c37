// The sphere as points in space: the icosahedron is regular and turns its faces outward,
// and splitting a triangle keeps them so.
module SphereShape {
  import opened Geometry
  import opened VectorLaws
  import opened Meshes
  import Icosahedron

  function Points(vertices: seq<real>): nat { |vertices| / 3 }

  function PointOf(vertices: seq<real>, i: nat): Vec3
    requires i < Points(vertices)
  {
    Vec3(vertices[3 * i], vertices[3 * i + 1], vertices[3 * i + 2])
  }

  function Halfway(p: Vec3, q: Vec3): Vec3 {
    Vec3((p.x + q.x) / 2.0, (p.y + q.y) / 2.0, (p.z + q.z) / 2.0)
  }

  lemma HalfwaySwap(p: Vec3, q: Vec3)
    ensures Halfway(p, q) == Halfway(q, p)
  {
  }

  // As far from the one as from the other, in between.
  lemma HalfwayIsHalfway(p: Vec3, q: Vec3)
    ensures Sub(Halfway(p, q), p) == Sub(q, Halfway(p, q))
  {
  }

  // The base points for golden ratio g.
  function BasePoints(g: real): (v: seq<real>)
    ensures |v| == 36
  {
    [-1.0, g, 0.0, 1.0, g, 0.0, -1.0, -g, 0.0, 1.0, -g, 0.0,
     0.0, -1.0, g, 0.0, 1.0, g, 0.0, -1.0, -g, 0.0, 1.0, -g,
     g, 0.0, -1.0, g, 0.0, 1.0, -g, 0.0, -1.0, -g, 0.0, 1.0]
  }

  function Distance2(a: Vec3, b: Vec3): real {
    Dot(Sub(b, a), Sub(b, a))
  }

  predicate Golden(g: real) {
    g > 0.0 && g * g == g + 1.0
  }

  // ------------------------------------------------------------------- the icosahedron

  function BasePoint(g: real, i: nat): Vec3 {
    match i
    case 0 => Vec3(-1.0, g, 0.0)
    case 1 => Vec3(1.0, g, 0.0)
    case 2 => Vec3(-1.0, -g, 0.0)
    case 3 => Vec3(1.0, -g, 0.0)
    case 4 => Vec3(0.0, -1.0, g)
    case 5 => Vec3(0.0, 1.0, g)
    case 6 => Vec3(0.0, -1.0, -g)
    case 7 => Vec3(0.0, 1.0, -g)
    case 8 => Vec3(g, 0.0, -1.0)
    case 9 => Vec3(g, 0.0, 1.0)
    case 10 => Vec3(-g, 0.0, -1.0)
    case _ => Vec3(-g, 0.0, 1.0)
  }

  lemma BasePointIs(g: real, i: nat)
    requires i < 12
    ensures Points(BasePoints(g)) == 12 && PointOf(BasePoints(g), i) == BasePoint(g, i)
  {
  }

  lemma BasePointIsRound(g: real, i: nat)
    requires Golden(g)
    ensures Dot(BasePoint(g, i), BasePoint(g, i)) == g + 2.0
  {
  }

  // Three points as far apart as neighbours are.
  ghost predicate NearBy(g: real, i: nat, j: nat, k: nat) {
    var a, b, c := BasePoint(g, i), BasePoint(g, j), BasePoint(g, k);
    && i < 12 && j < 12 && k < 12
    && Dot(a, b) == g && Dot(b, c) == g && Dot(c, a) == g && Volume(a, b, c) == 2.0 * g + 2.0
  }

  // A triangle with sides of length 2 that turns outward.
  ghost predicate Regular(a: Vec3, b: Vec3, c: Vec3) {
    Distance2(a, b) == 4.0 && Distance2(b, c) == 4.0 && Distance2(c, a) == 4.0 && Volume(a, b, c) > 0.0
  }

  lemma Faces0(g: real, g3: real, t: nat)
    requires Golden(g) && g3 == g * g * g == 2.0 * g + 1.0 && 0 <= t < 5
    ensures var f := Icosahedron.BaseFace(t); NearBy(g, f.a, f.b, f.c)
  {
  }

  lemma Faces5(g: real, g3: real, t: nat)
    requires Golden(g) && g3 == g * g * g == 2.0 * g + 1.0 && 5 <= t < 10
    ensures var f := Icosahedron.BaseFace(t); NearBy(g, f.a, f.b, f.c)
  {
  }

  lemma Faces10(g: real, g3: real, t: nat)
    requires Golden(g) && g3 == g * g * g == 2.0 * g + 1.0 && 10 <= t < 15
    ensures var f := Icosahedron.BaseFace(t); NearBy(g, f.a, f.b, f.c)
  {
  }

  lemma Faces15(g: real, g3: real, t: nat)
    requires Golden(g) && g3 == g * g * g == 2.0 * g + 1.0 && 15 <= t < 20
    ensures var f := Icosahedron.BaseFace(t); NearBy(g, f.a, f.b, f.c)
  {
  }

  lemma DistanceIs(a: Vec3, b: Vec3)
    ensures Distance2(a, b) == Dot(a, a) + Dot(b, b) - 2.0 * Dot(a, b)
  {
  }

  lemma NearByIsRegular(g: real, i: nat, j: nat, k: nat)
    requires Golden(g) && NearBy(g, i, j, k)
    ensures Regular(BasePoint(g, i), BasePoint(g, j), BasePoint(g, k))
  {
    hide BasePoint, Dot, Cross, Distance2;
    BasePointIsRound(g, i);
    BasePointIsRound(g, j);
    BasePointIsRound(g, k);
    DistanceIs(BasePoint(g, i), BasePoint(g, j));
    DistanceIs(BasePoint(g, j), BasePoint(g, k));
    DistanceIs(BasePoint(g, k), BasePoint(g, i));
  }

  // Corner k of triangle t.
  function CornerOf(vertices: seq<real>, idx: seq<nat>, t: nat, k: Slot): Vec3
    requires t < Triangles(idx) && Org(idx, t, k) < Points(vertices)
  {
    PointOf(vertices, Org(idx, t, k))
  }

  ghost predicate RegularAt(vertices: seq<real>, idx: seq<nat>, t: nat) {
    && t < Triangles(idx)
    && Org(idx, t, 0) < Points(vertices) && Org(idx, t, 1) < Points(vertices) && Org(idx, t, 2) < Points(vertices)
    && Regular(CornerOf(vertices, idx, t, 0), CornerOf(vertices, idx, t, 1), CornerOf(vertices, idx, t, 2))
  }

  lemma Cubed(g: real)
    requires Golden(g)
    ensures g * g * g == 2.0 * g + 1.0
  {
    assert g * g * g == (g + 1.0) * g;
  }

  // The base mesh is a regular icosahedron: all edges have length 2, all faces turn
  // outward, and all points are equally far from the centre.
  lemma BaseIsRegular(g: real, t: nat)
    requires Golden(g) && t < 20
    ensures RegularAt(BasePoints(g), Icosahedron.BaseIndices(), t)
  {
    hide BasePoints, BasePoint, PointOf, Icosahedron.BaseFace, Icosahedron.BaseIndices, Regular, Points;
    Icosahedron.BaseEdge(t, 0);
    Icosahedron.BaseEdge(t, 1);
    Icosahedron.BaseEdge(t, 2);
    Cubed(g);
    if t < 5 { Faces0(g, g * g * g, t); }
    else if t < 10 { Faces5(g, g * g * g, t); }
    else if t < 15 { Faces10(g, g * g * g, t); }
    else { Faces15(g, g * g * g, t); }
    var f := Icosahedron.BaseFace(t);
    NearByIsRegular(g, f.a, f.b, f.c);
    BasePointIs(g, f.a);
    BasePointIs(g, f.b);
    BasePointIs(g, f.c);
  }

  lemma BaseIsRound(g: real, i: nat)
    requires Golden(g) && i < 12
    ensures Points(BasePoints(g)) == 12
    ensures Dot(PointOf(BasePoints(g), i), PointOf(BasePoints(g), i)) == g + 2.0
  {
    hide BasePoints, PointOf;
    BasePointIs(g, i);
    BasePointIsRound(g, i);
  }

  // -------------------------------------------------------------- splitting a triangle

  predicate OutwardAt(vertices: seq<real>, idx: seq<nat>, t: nat)
    requires t < Triangles(idx)
  {
    && Org(idx, t, 0) < Points(vertices) && Org(idx, t, 1) < Points(vertices) && Org(idx, t, 2) < Points(vertices)
    && Volume(CornerOf(vertices, idx, t, 0), CornerOf(vertices, idx, t, 1), CornerOf(vertices, idx, t, 2)) > 0.0
  }

  // Every triangle turns outward, as seen from the origin.
  ghost predicate Outward(vertices: seq<real>, idx: seq<nat>) {
    forall t: nat :: t < Triangles(idx) ==> OutwardAt(vertices, idx, t)
  }

  lemma BaseIsOutward(g: real)
    requires Golden(g)
    ensures Outward(BasePoints(g), Icosahedron.BaseIndices())
  {
    hide BasePoints, Volume, PointOf, Distance2, Points, Icosahedron.BaseFace;
    forall t: nat | t < 20
      ensures OutwardAt(BasePoints(g), Icosahedron.BaseIndices(), t)
    {
      BaseIsRegular(g, t);
    }
  }

  ghost predicate AlongRay(p: Vec3, q: Vec3) {
    exists k: real :: k > 0.0 && q == Scale(k, p)
  }

  // norm pushes every point but the origin along its own ray.
  ghost predicate Radial(norm: Vec3 -> Vec3) {
    forall p: Vec3 :: p != Vec3(0.0, 0.0, 0.0) ==> AlongRay(p, norm(p))
  }

  lemma DotScale(k: real, a: Vec3, b: Vec3)
    ensures Dot(Scale(k, a), b) == k * Dot(a, b)
  {
  }

  lemma VolumeScale(k: real, a: Vec3, b: Vec3, c: Vec3)
    ensures Volume(Scale(k, a), b, c) == k * Volume(a, b, c)
    ensures Volume(a, Scale(k, b), c) == k * Volume(a, b, c)
    ensures Volume(a, b, Scale(k, c)) == k * Volume(a, b, c)
  {
    hide Scale, Dot, Cross;
    DotScale(k, a, Cross(b, c));
    VolumeTurns(a, b, c);
    VolumeTurns(a, Scale(k, b), c);
    DotScale(k, b, Cross(c, a));
    VolumeTurns(a, b, Scale(k, c));
    DotScale(k, c, Cross(a, b));
  }

  lemma DotAdd(a: Vec3, b: Vec3, c: Vec3)
    ensures Dot(Add(a, b), c) == Dot(a, c) + Dot(b, c)
  {
  }

  lemma VolumeAdd(a: Vec3, a': Vec3, b: Vec3, c: Vec3)
    ensures Volume(Add(a, a'), b, c) == Volume(a, b, c) + Volume(a', b, c)
    ensures Volume(b, Add(a, a'), c) == Volume(b, a, c) + Volume(b, a', c)
    ensures Volume(b, c, Add(a, a')) == Volume(b, c, a) + Volume(b, c, a')
  {
    hide Add, Dot, Cross;
    DotAdd(a, a', Cross(b, c));
    DotAdd(a, a', Cross(c, b));
    VolumeTurns(b, Add(a, a'), c);
    VolumeTurns(b, a, c);
    VolumeTurns(b, a', c);
    VolumeTurns(b, c, Add(a, a'));
    VolumeTurns(b, c, a);
    VolumeTurns(b, c, a');
  }

  lemma VolumeFlat(a: Vec3, b: Vec3)
    ensures Volume(a, a, b) == 0.0 && Volume(a, b, a) == 0.0 && Volume(b, a, a) == 0.0
  {
    Perpendicular(a, b);
    VolumeTurns(a, a, b);
    VolumeTurns(a, b, a);
  }

  // The triangle a corner keeps, and the one in the middle, before the midpoints are pushed out.
  lemma PartVolumes(a: Vec3, b: Vec3, c: Vec3)
    ensures Volume(a, Add(a, b), Add(c, a)) == Volume(a, b, c)
    ensures Volume(Add(a, b), Add(b, c), Add(c, a)) == 2.0 * Volume(a, b, c)
  {
    hide Volume, Add;
    VolumeAdd(a, b, a, Add(c, a));
    VolumeAdd(c, a, a, a);
    VolumeAdd(c, a, a, b);
    VolumeFlat(a, a);
    VolumeFlat(a, b);
    VolumeFlat(a, c);
    VolumeAdd(a, b, Add(b, c), Add(c, a));
    VolumeAdd(b, c, a, Add(c, a));
    VolumeAdd(b, c, b, Add(c, a));
    VolumeAdd(c, a, a, c);
    VolumeAdd(c, a, b, b);
    VolumeAdd(c, a, b, c);
    VolumeFlat(b, c);
    VolumeFlat(b, a);
    VolumeFlat(c, a);
    VolumeFlat(c, b);
    VolumeTurns(a, b, c);
  }

  lemma Opposed(a: Vec3, b: Vec3, c: Vec3)
    requires Volume(a, b, c) != 0.0
    ensures Halfway(a, b) != Vec3(0.0, 0.0, 0.0)
  {
    if Halfway(a, b) == Vec3(0.0, 0.0, 0.0) {
      assert b == Scale(-1.0, a);
      hide Volume;
      VolumeScale(-1.0, a, a, c);
      VolumeFlat(a, c);
      assert false;
    }
  }

  lemma HalfwayIsScaled(a: Vec3, b: Vec3)
    ensures Halfway(a, b) == Scale(0.5, Add(a, b))
  {
  }

  lemma PushedOut(a: Vec3, b: Vec3, c: Vec3, norm: Vec3 -> Vec3) returns (k: real)
    requires Radial(norm) && Volume(a, b, c) != 0.0
    ensures k > 0.0 && norm(Halfway(a, b)) == Scale(k, Add(a, b))
  {
    hide Volume, Scale, Add, Halfway;
    Opposed(a, b, c);
    assert AlongRay(Halfway(a, b), norm(Halfway(a, b)));
    var m: real :| m > 0.0 && norm(Halfway(a, b)) == Scale(m, Halfway(a, b));
    HalfwayIsScaled(a, b);
    k := 0.5 * m;
    ScaleScale(0.5, m, k, Add(a, b));
  }

  lemma PositiveTimes(k: real, v: real)
    requires k > 0.0 && v > 0.0
    ensures k * v > 0.0
  {
  }

  lemma ScaledParts(a: Vec3, b: Vec3, c: Vec3, k: real, l: real, m: real)
    requires k > 0.0 && l > 0.0 && m > 0.0 && Volume(a, b, c) > 0.0
    ensures Volume(a, Scale(k, Add(a, b)), Scale(m, Add(c, a))) > 0.0
    ensures Volume(Scale(k, Add(a, b)), Scale(l, Add(b, c)), Scale(m, Add(c, a))) > 0.0
  {
    hide Volume, Scale, Add;
    var p, q, r := Add(a, b), Add(b, c), Add(c, a);
    PartVolumes(a, b, c);
    VolumeScale(m, a, p, r);
    PositiveTimes(m, Volume(a, p, r));
    VolumeScale(k, a, p, Scale(m, r));
    PositiveTimes(k, Volume(a, p, Scale(m, r)));
    VolumeScale(m, p, q, r);
    PositiveTimes(m, Volume(p, q, r));
    VolumeScale(l, p, q, Scale(m, r));
    PositiveTimes(l, Volume(p, q, Scale(m, r)));
    VolumeScale(k, p, Scale(l, q), Scale(m, r));
    PositiveTimes(k, Volume(p, Scale(l, q), Scale(m, r)));
  }

  // Splitting an outward triangle at its pushed-out midpoints gives four outward ones.
  lemma PartsTurnOutward(a: Vec3, b: Vec3, c: Vec3, norm: Vec3 -> Vec3)
    requires Radial(norm) && Volume(a, b, c) > 0.0
    ensures var ab, bc, ca := norm(Halfway(a, b)), norm(Halfway(b, c)), norm(Halfway(c, a));
            Volume(a, ab, ca) > 0.0 && Volume(b, bc, ab) > 0.0 && Volume(c, ca, bc) > 0.0 && Volume(ab, bc, ca) > 0.0
  {
    hide Volume, Scale, Add, Halfway, Radial;
    VolumeTurns(a, b, c);
    var k := PushedOut(a, b, c, norm);
    var l := PushedOut(b, c, a, norm);
    var m := PushedOut(c, a, b, norm);
    ScaledParts(a, b, c, k, l, m);
    ScaledParts(b, c, a, l, m, k);
    ScaledParts(c, a, b, m, k, l);
  }

  lemma FlatAtOrigin(b: Vec3, c: Vec3)
    ensures Volume(Vec3(0.0, 0.0, 0.0), b, c) == 0.0
  {
  }

  lemma BackAndForth(p: Vec3, center: Vec3)
    ensures Sub(Add(p, center), center) == p
  {
  }

  lemma PushedRay(a: Vec3, norm: Vec3 -> Vec3, radius: real, center: Vec3) returns (k: real)
    requires Radial(norm) && a != Vec3(0.0, 0.0, 0.0) && radius > 0.0
    ensures k > 0.0 && Sub(Add(Scale(radius, norm(a)), center), center) == Scale(k, a)
  {
    assert AlongRay(a, norm(a));
    var m: real :| m > 0.0 && norm(a) == Scale(m, a);
    k := m * radius;
    PositiveTimes(m, radius);
    ScaleScale(m, radius, k, a);
    BackAndForth(Scale(radius, norm(a)), center);
  }

  // Pushing the corners out once more and putting the sphere in its place turns no face.
  lemma PlacedOutward(a: Vec3, b: Vec3, c: Vec3, norm: Vec3 -> Vec3, radius: real, center: Vec3)
    requires Radial(norm) && Volume(a, b, c) > 0.0 && radius > 0.0
    ensures Volume(Sub(Add(Scale(radius, norm(a)), center), center), Sub(Add(Scale(radius, norm(b)), center), center),
                   Sub(Add(Scale(radius, norm(c)), center), center)) > 0.0
  {
    hide Volume, Radial;
    VolumeTurns(a, b, c);
    FlatAtOrigin(b, c);
    FlatAtOrigin(c, a);
    FlatAtOrigin(a, b);
    var k := PushedRay(a, norm, radius, center);
    var l := PushedRay(b, norm, radius, center);
    var m := PushedRay(c, norm, radius, center);
    hide Scale, Add, Sub;
    VolumeScale(m, a, b, c);
    PositiveTimes(m, Volume(a, b, c));
    VolumeScale(l, a, b, Scale(m, c));
    PositiveTimes(l, Volume(a, b, Scale(m, c)));
    VolumeScale(k, a, Scale(l, b), Scale(m, c));
    PositiveTimes(k, Volume(a, Scale(l, b), Scale(m, c)));
  }
}
