// The two ray tests of the shadow shader, over real arithmetic.
module Rays {
  import opened Geometry
  import opened VectorLaws

  const EPS := 0.00001

  // odd is what the machine's slab test answers for a box with a face in line with the ray,
  // where infinity times zero comes up.
  datatype Ray = Ray(o: Vec3, d: Vec3, tMax: real, odd: Box -> Ext)

  function Inverse(x: real): Ext {
    if x == 0.0 then PosInf else Fin(1.0 / x)
  }

  function Reciprocal(d: Vec3): Ext3 {
    Ext3(Inverse(d.x), Inverse(d.y), Inverse(d.z))
  }

  function PointAt(ray: Ray, t: real): Vec3 {
    Add(ray.o, Scale(t, ray.d))
  }

  // ---------------------------------------------------------------- slab test

  // (bound - o) * inv on one axis; with an infinite inv the bound is not o.
  function Slab(bound: Ext, o: real, inv: Ext): Ext {
    match inv
    case Fin(k) =>
      (match bound
       case Fin(r) => Fin((r - o) * k)
       case PosInf => if k > 0.0 then PosInf else NegInf
       case NegInf => if k > 0.0 then NegInf else PosInf)
    case PosInf => if Lt(Fin(o), bound) then PosInf else NegInf
    case NegInf => if Lt(Fin(o), bound) then NegInf else PosInf
  }

  function SlabMin(box: Box, o: Vec3, inv: Ext3, i: Axis): Ext {
    Min(Slab(box.lo.At(i), o.At(i), inv.At(i)), Slab(box.hi.At(i), o.At(i), inv.At(i)))
  }

  function SlabMax(box: Box, o: Vec3, inv: Ext3, i: Axis): Ext {
    Max(Slab(box.lo.At(i), o.At(i), inv.At(i)), Slab(box.hi.At(i), o.At(i), inv.At(i)))
  }

  function TNear(o: Vec3, inv: Ext3, box: Box): Ext {
    Max(Max(SlabMin(box, o, inv, 0), SlabMin(box, o, inv, 1)), SlabMin(box, o, inv, 2))
  }

  function TFar(o: Vec3, inv: Ext3, box: Box): Ext {
    Min(Min(SlabMax(box, o, inv, 0), SlabMax(box, o, inv, 1)), SlabMax(box, o, inv, 2))
  }

  function Clip(near: Ext, far: Ext, tMax: real): Ext {
    if Lt(far, Max(near, Fin(0.0))) || Lt(Fin(tMax), near) then Fin(-1.0) else near
  }

  function IntersectAabb(o: Vec3, inv: Ext3, box: Box, tMax: real): Ext {
    Clip(TNear(o, inv, box), TFar(o, inv, box), tMax)
  }

  // No face of the box is in line with the ray: then the slab test runs into no 0 * infinity.
  predicate Clear(ray: Ray, box: Box) {
    forall i: Axis :: ray.d.At(i) == 0.0 ==> box.lo.At(i) != Fin(ray.o.At(i)) && box.hi.At(i) != Fin(ray.o.At(i))
  }

  function SlabAnswer(ray: Ray, box: Box): Ext {
    if Clear(ray, box) then IntersectAabb(ray.o, Reciprocal(ray.d), box, ray.tMax) else ray.odd(box)
  }

  // What the traversal asks of a node box.
  predicate Enters(ray: Ray, box: Box) {
    !Lt(SlabAnswer(ray, box), Fin(0.0))
  }

  // The origin lies beyond every entering slab plane: t_near is negative.
  predicate StartsInside(ray: Ray, box: Box) {
    Lt(TNear(ray.o, Reciprocal(ray.d), box), Fin(0.0))
  }

  lemma Sign(d: real, inv: real)
    requires d != 0.0 && inv * d == 1.0
    ensures inv > 0.0 <==> d > 0.0
    ensures inv != 0.0
  {
  }

  lemma SlabSide(r: real, o: real, d: real, t: real, inv: real)
    requires d != 0.0 && inv * d == 1.0
    ensures ((r - o) * inv <= t) <==> (if d > 0.0 then r <= o + t * d else r >= o + t * d)
    ensures ((r - o) * inv >= t) <==> (if d > 0.0 then r >= o + t * d else r <= o + t * d)
  {
    var k := (r - o) * inv;
    assert k * d == (r - o) * (inv * d) == r - o;
    assert (k - t) * d == r - (o + t * d);
  }

  // One slab value against a parameter is its bound against the point.
  lemma SlabAgainst(bound: Ext, o: real, d: real, t: real, inv: real, x: real)
    requires d != 0.0 && inv * d == 1.0 && x == o + t * d
    ensures var s := Slab(bound, o, Fin(inv));
            && (Le(s, Fin(t)) <==> if d > 0.0 then Le(bound, Fin(x)) else Le(Fin(x), bound))
            && (Le(Fin(t), s) <==> if d > 0.0 then Le(Fin(x), bound) else Le(bound, Fin(x)))
  {
    Sign(d, inv);
    if bound.Fin? { SlabSide(bound.r, o, d, t, inv); }
  }

  lemma SlabBrackets(lo: Ext, hi: Ext, o: real, d: real, t: real, inv: real)
    requires d != 0.0 && inv == 1.0 / d
    requires Le(lo, Fin(o + t * d)) && Le(Fin(o + t * d), hi)
    ensures Le(Min(Slab(lo, o, Fin(inv)), Slab(hi, o, Fin(inv))), Fin(t))
    ensures Le(Fin(t), Max(Slab(lo, o, Fin(inv)), Slab(hi, o, Fin(inv))))
  {
    assert inv * d == 1.0;
    SlabAgainst(lo, o, d, t, inv, o + t * d);
    SlabAgainst(hi, o, d, t, inv, o + t * d);
    hide Slab;
  }

  lemma OnAxis(ray: Ray, t: real, i: Axis)
    ensures Reciprocal(ray.d).At(i) == Inverse(ray.d.At(i))
    ensures PointAt(ray, t).At(i) == ray.o.At(i) + t * ray.d.At(i)
    ensures ray.d.At(i) != 0.0 ==> 1.0 / ray.d.At(i) * ray.d.At(i) == 1.0
    ensures ray.d.At(i) == 0.0 ==> PointAt(ray, t).At(i) == ray.o.At(i)
  {
  }

  lemma ClearOnAxis(ray: Ray, box: Box, i: Axis)
    requires Clear(ray, box) && ray.d.At(i) == 0.0
    ensures box.lo.At(i) != Fin(ray.o.At(i)) && box.hi.At(i) != Fin(ray.o.At(i))
  {
  }

  lemma AxisBrackets(ray: Ray, box: Box, t: real, i: Axis)
    requires Clear(ray, box) && InBox(box, PointAt(ray, t))
    ensures Le(SlabMin(box, ray.o, Reciprocal(ray.d), i), Fin(t))
    ensures Le(Fin(t), SlabMax(box, ray.o, Reciprocal(ray.d), i))
  {
    hide Reciprocal, PointAt, Vec3.At, Clear;
    OnAxis(ray, t, i);
    if ray.d.At(i) != 0.0 {
      SlabBrackets(box.lo.At(i), box.hi.At(i), ray.o.At(i), ray.d.At(i), t, 1.0 / ray.d.At(i));
    } else {
      ClearOnAxis(ray, box, i);
    }
  }

  lemma Gather(n0: Ext, n1: Ext, n2: Ext, f0: Ext, f1: Ext, f2: Ext, t: real)
    requires Le(n0, Fin(t)) && Le(n1, Fin(t)) && Le(n2, Fin(t))
    requires Le(Fin(t), f0) && Le(Fin(t), f1) && Le(Fin(t), f2)
    ensures Le(Max(Max(n0, n1), n2), Fin(t)) && Le(Fin(t), Min(Min(f0, f1), f2))
  {
  }

  lemma ClipKeeps(near: Ext, far: Ext, t: real, tMax: real)
    requires Le(near, Fin(t)) && Le(Fin(t), far) && 0.0 < t <= tMax
    ensures Clip(near, far, tMax) == near
  {
  }

  // A point of the ray inside the box keeps the slab test from rejecting, whatever
  // the sign of t_near.
  lemma SlabAdmits(ray: Ray, box: Box, t: real)
    requires Clear(ray, box)
    requires 0.0 < t <= ray.tMax
    requires InBox(box, PointAt(ray, t))
    ensures var near := TNear(ray.o, Reciprocal(ray.d), box);
            && IntersectAabb(ray.o, Reciprocal(ray.d), box, ray.tMax) == near
            && Le(near, Fin(t))
    ensures Le(Fin(t), TFar(ray.o, Reciprocal(ray.d), box))
  {
    var o, inv := ray.o, Reciprocal(ray.d);
    AxisBrackets(ray, box, t, 0);
    AxisBrackets(ray, box, t, 1);
    AxisBrackets(ray, box, t, 2);
    hide *;
    Gather(SlabMin(box, o, inv, 0), SlabMin(box, o, inv, 1), SlabMin(box, o, inv, 2),
           SlabMax(box, o, inv, 0), SlabMax(box, o, inv, 1), SlabMax(box, o, inv, 2), t);
    ClipKeeps(TNear(o, inv, box), TFar(o, inv, box), t, ray.tMax);
  }

  // The slab test's own idea of meeting the box, before its answer is read as a sign.
  predicate MeetsBox(ray: Ray, box: Box) {
    var inv := Reciprocal(ray.d);
    && Le(Max(TNear(ray.o, inv, box), Fin(0.0)), TFar(ray.o, inv, box))
    && Le(TNear(ray.o, inv, box), Fin(ray.tMax))
  }

  // Reading the answer as a sign loses exactly the boxes the ray starts inside.
  lemma EntersIffMeetsFromOutside(ray: Ray, box: Box)
    requires Clear(ray, box)
    ensures Enters(ray, box) <==> MeetsBox(ray, box) && !StartsInside(ray, box)
  {
    hide Reciprocal, TNear, TFar;
  }

  // ------------------------------------------------------------ triangle test

  function Times(inv: real, n: real): real {
    inv * n
  }

  function Verdict(u: real, v: real, t: real): real {
    if u < 0.0 || u > 1.0 then -1.0
    else if v < 0.0 || u + v > 1.0 then -1.0
    else if t > EPS then t else -1.0
  }

  // The branches of the test, on the determinant and the three numerators.
  function Judge(a: real, un: real, vn: real, tn: real): real {
    if -EPS < a < EPS then -1.0
    else Verdict(Times(1.0 / a, un), Times(1.0 / a, vn), Times(1.0 / a, tn))
  }

  function IntersectTri(o: Vec3, d: Vec3, f: Face): real {
    var e1 := Sub(f.v1, f.v0);
    var e2 := Sub(f.v2, f.v0);
    var h := Cross(d, e2);
    var s := Sub(o, f.v0);
    var q := Cross(s, e1);
    Judge(Dot(e1, h), Dot(s, h), Dot(d, q), Dot(e2, q))
  }

  lemma Quotient(a: real, n: real, x: real)
    requires a != 0.0
    ensures Times(1.0 / a, n) == x <==> n == x * a
  {
    var inv := 1.0 / a;
    assert inv * a == 1.0;
    assert (inv * n) * a == (inv * a) * n;
    assert inv * (x * a) == (inv * a) * x;
  }

  predicate Weights(u: real, v: real) {
    u >= 0.0 && v >= 0.0 && u + v <= 1.0
  }

  lemma JudgeAccepts(a: real, un: real, vn: real, tn: real) returns (u: real, v: real)
    requires Judge(a, un, vn, tn) > 0.0
    ensures !(-EPS < a < EPS)
    ensures var t := Judge(a, un, vn, tn); t > EPS && un == u * a && vn == v * a && tn == t * a
    ensures Weights(u, v)
  {
    u, v := Times(1.0 / a, un), Times(1.0 / a, vn);
    Quotient(a, un, u);
    Quotient(a, vn, v);
    Quotient(a, tn, Times(1.0 / a, tn));
  }

  lemma JudgeOf(a: real, un: real, vn: real, tn: real, u: real, v: real, t: real)
    requires !(-EPS < a < EPS) && Weights(u, v) && t > EPS
    requires un == u * a && vn == v * a && tn == t * a
    ensures Judge(a, un, vn, tn) == t
  {
    Quotient(a, un, u);
    Quotient(a, vn, v);
    Quotient(a, tn, t);
  }

  // The determinant the test divides by: the ray is not (nearly) parallel to the plane.
  predicate Transversal(d: Vec3, f: Face) {
    var a := Dot(Sub(f.v1, f.v0), Cross(d, Sub(f.v2, f.v0)));
    !(-EPS < a < EPS)
  }

  // The point of the triangle with barycentric weights (1 - u - v, u, v).
  function Barycentric(f: Face, u: real, v: real): Vec3 {
    Add(f.v0, Add(Scale(u, Sub(f.v1, f.v0)), Scale(v, Sub(f.v2, f.v0))))
  }

  function Mix(a: real, b: real, c: real, u: real, v: real): real {
    a + (u * (b - a) + v * (c - a))
  }

  lemma BarycentricMixes(f: Face, u: real, v: real)
    ensures Barycentric(f, u, v) == Vec3(Mix(f.v0.x, f.v1.x, f.v2.x, u, v),
                                         Mix(f.v0.y, f.v1.y, f.v2.y, u, v),
                                         Mix(f.v0.z, f.v1.z, f.v2.z, u, v))
  {
  }

  // What a hit at parameter t means, without any of the test's arithmetic.
  ghost predicate Meets(ray: Ray, f: Face, t: real) {
    exists u: real, v: real :: Weights(u, v) && PointAt(ray, t) == Barycentric(f, u, v)
  }

  lemma CramerPoint(s: Vec3, d: Vec3, e1: Vec3, e2: Vec3)
    ensures var h := Cross(d, e2); var a := Dot(e1, h); var q := Cross(s, e1);
            Add(Scale(a, s), Scale(Dot(e2, q), d)) == Add(Scale(Dot(s, h), e1), Scale(Dot(d, q), e2))
  {
    CramerCoordinate(s, d, e1, e2);
    CramerCoordinate(Turn(s), Turn(d), Turn(e1), Turn(e2));
    CramerCoordinate(Turn(Turn(s)), Turn(Turn(d)), Turn(Turn(e1)), Turn(Turn(e2)));
    var h, q := Cross(d, e2), Cross(s, e1);
    assert Same(Add(Scale(Dot(e1, h), s), Scale(Dot(e2, q), d)), Add(Scale(Dot(s, h), e1), Scale(Dot(d, q), e2)));
  }

  // The scaled identity of CramerPoint, with its common factor removed.
  lemma DivideOut(a: real, s: Vec3, t: real, d: Vec3, u: real, e1: Vec3, v: real, e2: Vec3,
                  tn: real, un: real, vn: real)
    requires a != 0.0 && tn == t * a && un == u * a && vn == v * a
    requires Add(Scale(a, s), Scale(tn, d)) == Add(Scale(un, e1), Scale(vn, e2))
    ensures Add(s, Scale(t, d)) == Add(Scale(u, e1), Scale(v, e2))
  {
    hide *;
    ScaleScale(t, a, tn, d);
    ScaleScale(u, a, un, e1);
    ScaleScale(v, a, vn, e2);
    ScaleAdd(a, s, Scale(t, d));
    ScaleAdd(a, Scale(u, e1), Scale(v, e2));
    ScaleInjective(a, Add(s, Scale(t, d)), Add(Scale(u, e1), Scale(v, e2)));
  }

  lemma Rebase(o: Vec3, v0: Vec3, t: real, d: Vec3, u: real, e1: Vec3, v: real, e2: Vec3)
    ensures Add(Sub(o, v0), Scale(t, d)) == Add(Scale(u, e1), Scale(v, e2))
       <==> Add(o, Scale(t, d)) == Add(v0, Add(Scale(u, e1), Scale(v, e2)))
  {
  }

  lemma MeetsWith(ray: Ray, f: Face, t: real, u: real, v: real)
    requires Weights(u, v)
    requires Add(Sub(ray.o, f.v0), Scale(t, ray.d))
          == Add(Scale(u, Sub(f.v1, f.v0)), Scale(v, Sub(f.v2, f.v0)))
    ensures Meets(ray, f, t)
  {
    Rebase(ray.o, f.v0, t, ray.d, u, Sub(f.v1, f.v0), v, Sub(f.v2, f.v0));
    assert PointAt(ray, t) == Barycentric(f, u, v);
  }

  lemma NumeratorsMeet(ray: Ray, f: Face, a: real, un: real, vn: real, tn: real)
    requires Judge(a, un, vn, tn) > 0.0
    requires Add(Scale(a, Sub(ray.o, f.v0)), Scale(tn, ray.d))
          == Add(Scale(un, Sub(f.v1, f.v0)), Scale(vn, Sub(f.v2, f.v0)))
    ensures Judge(a, un, vn, tn) > EPS && !(-EPS < a < EPS)
    ensures Meets(ray, f, Judge(a, un, vn, tn))
  {
    var t := Judge(a, un, vn, tn);
    var u, v := JudgeAccepts(a, un, vn, tn);
    assert a != 0.0;
    hide *;
    DivideOut(a, Sub(ray.o, f.v0), t, ray.d, u, Sub(f.v1, f.v0), v, Sub(f.v2, f.v0), tn, un, vn);
    MeetsWith(ray, f, t, u, v);
  }

  // Soundness of the triangle test: an accepted parameter is a genuine intersection.
  lemma TriangleHitIsReal(ray: Ray, f: Face)
    requires IntersectTri(ray.o, ray.d, f) > 0.0
    ensures Transversal(ray.d, f)
    ensures IntersectTri(ray.o, ray.d, f) > EPS
    ensures Meets(ray, f, IntersectTri(ray.o, ray.d, f))
  {
    var d, e1, e2, s := ray.d, Sub(f.v1, f.v0), Sub(f.v2, f.v0), Sub(ray.o, f.v0);
    var h, q := Cross(d, e2), Cross(s, e1);
    CramerPoint(s, d, e1, e2);
    NumeratorsMeet(ray, f, Dot(e1, h), Dot(s, h), Dot(d, q), Dot(e2, q));
  }

  lemma Isolate(s: Vec3, d: Vec3, e1: Vec3, e2: Vec3, u: real, v: real, t: real)
    requires Add(s, Scale(t, d)) == Add(Scale(u, e1), Scale(v, e2))
    ensures s == Add(Add(Scale(u, e1), Scale(v, e2)), Scale(-t, d))
  {
  }

  lemma CramerSolve(s: Vec3, d: Vec3, e1: Vec3, e2: Vec3, u: real, v: real, t: real)
    requires Add(s, Scale(t, d)) == Add(Scale(u, e1), Scale(v, e2))
    ensures var h := Cross(d, e2); var a := Dot(e1, h); var q := Cross(s, e1);
            Dot(s, h) == u * a && Dot(d, q) == v * a && Dot(e2, q) == t * a
  {
    hide *;
    var h := Cross(d, e2);
    Isolate(s, d, e1, e2, u, v, t);
    DotCombine(u, e1, v, e2, -t, d, h);
    CrossCombine(u, e1, v, e2, -t, d, e1);
    DotCombine(u, Cross(e1, e1), v, Cross(e2, e1), -t, Cross(d, e1), d);
    DotCombine(u, Cross(e1, e1), v, Cross(e2, e1), -t, Cross(d, e1), e2);
    Perpendicular(d, e2);
    Perpendicular(e2, e1);
    Perpendicular(d, e1);
    SelfCross(e1, d);
    SelfCross(e1, e2);
    Rotate(e1, d, e2);
    Rotate(d, e2, e1);
    CrossSwap(d, e1, e2);
    DotSwap(d, Cross(s, e1));
    DotSwap(e2, Cross(s, e1));
    DotSwap(s, h);
    DotSwap(d, Cross(e2, e1));
    DotSwap(d, Cross(d, e1));
    DotSwap(e2, Cross(e2, e1));
    DotSwap(e2, Cross(d, e1));
    DotSwap(e2, h);
    DotSwap(d, h);
  }

  lemma JudgeCramer(s: Vec3, d: Vec3, e1: Vec3, e2: Vec3, u: real, v: real, t: real)
    requires Add(s, Scale(t, d)) == Add(Scale(u, e1), Scale(v, e2))
    requires !(-EPS < Dot(e1, Cross(d, e2)) < EPS) && Weights(u, v) && t > EPS
    ensures Judge(Dot(e1, Cross(d, e2)), Dot(s, Cross(d, e2)), Dot(d, Cross(s, e1)), Dot(e2, Cross(s, e1))) == t
  {
    CramerSolve(s, d, e1, e2, u, v, t);
    JudgeOf(Dot(e1, Cross(d, e2)), Dot(s, Cross(d, e2)), Dot(d, Cross(s, e1)), Dot(e2, Cross(s, e1)), u, v, t);
  }

  // Completeness: every transversal intersection beyond EPS is returned, as itself.
  lemma TriangleTestComplete(ray: Ray, f: Face, t: real)
    requires Transversal(ray.d, f) && t > EPS && Meets(ray, f, t)
    ensures IntersectTri(ray.o, ray.d, f) == t
  {
    var u: real, v: real :| Weights(u, v) && PointAt(ray, t) == Barycentric(f, u, v);
    Rebase(ray.o, f.v0, t, ray.d, u, Sub(f.v1, f.v0), v, Sub(f.v2, f.v0));
    JudgeCramer(Sub(ray.o, f.v0), ray.d, Sub(f.v1, f.v0), Sub(f.v2, f.v0), u, v, t);
  }

  lemma ProductSign(a: real, b: real)
    requires a >= 0.0 && b >= 0.0
    ensures a * b >= 0.0
  {
  }

  lemma Blend(m: real, a: real, b: real, c: real, u: real, v: real)
    requires Weights(u, v)
    ensures m <= a && m <= b && m <= c ==> m <= Mix(a, b, c, u, v)
    ensures m >= a && m >= b && m >= c ==> m >= Mix(a, b, c, u, v)
  {
    var w := 1.0 - u - v;
    assert Mix(a, b, c, u, v) - m == w * (a - m) + u * (b - m) + v * (c - m);
    if m <= a && m <= b && m <= c {
      ProductSign(w, a - m);
      ProductSign(u, b - m);
      ProductSign(v, c - m);
    }
    if m >= a && m >= b && m >= c {
      ProductSign(w, m - a);
      ProductSign(u, m - b);
      ProductSign(v, m - c);
    }
  }

  // A triangle's hull lies in any box that holds its corners.
  lemma HullInBox(box: Box, f: Face, u: real, v: real)
    requires FaceInBox(box, f) && Weights(u, v)
    ensures InBox(box, Barycentric(f, u, v))
  {
    forall i: Axis
      ensures Le(box.lo.At(i), Fin(Barycentric(f, u, v).At(i)))
           && Le(Fin(Barycentric(f, u, v).At(i)), box.hi.At(i))
    {
      var a, b, c := f.v0.At(i), f.v1.At(i), f.v2.At(i);
      BarycentricMixes(f, u, v);
      if box.lo.At(i).Fin? { Blend(box.lo.At(i).r, a, b, c, u, v); }
      if box.hi.At(i).Fin? { Blend(box.hi.At(i).r, a, b, c, u, v); }
    }
  }

  predicate Hits(ray: Ray, f: Face) {
    0.0 < IntersectTri(ray.o, ray.d, f) < ray.tMax
  }

  // Both tests answer minus one for a miss.
  lemma MissIsMinusOne(ray: Ray, box: Box, f: Face)
    ensures !MeetsBox(ray, box) ==> IntersectAabb(ray.o, Reciprocal(ray.d), box, ray.tMax) == Fin(-1.0)
    ensures IntersectTri(ray.o, ray.d, f) > 0.00001 || IntersectTri(ray.o, ray.d, f) == -1.0
  {
    hide TNear, TFar, Reciprocal, Times, Cross, Dot;
  }

  // What a hit is, without any of the test's arithmetic.
  lemma HitsIffMeets(ray: Ray, f: Face)
    ensures Hits(ray, f) <==> exists t: real :: 0.00001 < t < ray.tMax && Transversal(ray.d, f) && Meets(ray, f, t)
  {
    hide IntersectTri, Meets, Transversal;
    if Hits(ray, f) {
      TriangleHitIsReal(ray, f);
    }
    if t: real :| 0.00001 < t < ray.tMax && Transversal(ray.d, f) && Meets(ray, f, t) {
      TriangleTestComplete(ray, f, t);
    }
  }

  lemma BoxWithPointIsMet(ray: Ray, box: Box, t: real)
    requires Clear(ray, box) && 0.0 < t <= ray.tMax && InBox(box, PointAt(ray, t))
    ensures MeetsBox(ray, box) && Le(TNear(ray.o, Reciprocal(ray.d), box), Fin(t))
  {
    hide Reciprocal, TNear, TFar, InBox, PointAt;
    SlabAdmits(ray, box, t);
  }

  // Pruning is admissible up to the sign of t_near: the ray meets every box that holds a
  // triangle it hits in range, so only starting inside the box can turn it away.
  lemma PruningAdmissible(ray: Ray, box: Box, f: Face)
    requires Clear(ray, box) && FaceInBox(box, f) && Hits(ray, f)
    ensures MeetsBox(ray, box)
    ensures Enters(ray, box) <==> !StartsInside(ray, box)
    ensures Le(TNear(ray.o, Reciprocal(ray.d), box), Fin(IntersectTri(ray.o, ray.d, f)))
  {
    TriangleHitIsReal(ray, f);
    var t := IntersectTri(ray.o, ray.d, f);
    var u: real, v: real :| Weights(u, v) && PointAt(ray, t) == Barycentric(f, u, v);
    HullInBox(box, f, u, v);
    BoxWithPointIsMet(ray, box, t);
    EntersIffMeetsFromOutside(ray, box);
  }
}
