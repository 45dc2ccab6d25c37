// What the slab test decides about the ray as a set of points.
module SlabTest {
  import opened Geometry
  import opened Rays

  ghost predicate Upright(box: Box) {
    forall i: Axis :: Le(box.lo.At(i), box.hi.At(i))
  }

  lemma SlabOrder(a: real, b: real, o: real, inv: real)
    requires a <= b
    ensures if inv > 0.0 then (a - o) * inv <= (b - o) * inv else (b - o) * inv <= (a - o) * inv
  {
    assert (b - o) * inv - (a - o) * inv == (b - a) * inv;
  }

  lemma SlabsOrdered(lo: Ext, hi: Ext, o: real, inv: real)
    requires Le(lo, hi) && inv != 0.0
    ensures var l, h := Slab(lo, o, Fin(inv)), Slab(hi, o, Fin(inv));
            if inv > 0.0 then Le(l, h) else Le(h, l)
  {
    if lo.Fin? && hi.Fin? { SlabOrder(lo.r, hi.r, o, inv); }
  }

  // On one axis: the parameters between the two slab values are those of points between
  // the two bounds.
  lemma SlabIsInterval(lo: Ext, hi: Ext, o: real, d: real, t: real, inv: real, x: real)
    requires d != 0.0 && inv * d == 1.0 && Le(lo, hi) && x == o + t * d
    ensures var l, h := Slab(lo, o, Fin(inv)), Slab(hi, o, Fin(inv));
            Le(Min(l, h), Fin(t)) && Le(Fin(t), Max(l, h)) <==> Le(lo, Fin(x)) && Le(Fin(x), hi)
  {
    Sign(d, inv);
    SlabAgainst(lo, o, d, t, inv, x);
    SlabAgainst(hi, o, d, t, inv, x);
    SlabsOrdered(lo, hi, o, inv);
    hide Slab;
  }

  // Along an axis the ray does not move on, the slab is the whole line or nothing.
  lemma FlatInterval(lo: Ext, hi: Ext, o: real, t: real)
    requires Le(lo, hi) && lo != Fin(o) && hi != Fin(o)
    ensures var l, h := Slab(lo, o, PosInf), Slab(hi, o, PosInf);
            && (Le(Min(l, h), Fin(t)) && Le(Fin(t), Max(l, h)) <==> Le(lo, Fin(o)) && Le(Fin(o), hi))
            && (Lt(Min(l, h), Fin(0.0)) <==> Lt(lo, Fin(o)))
  {
  }

  lemma AxisInterval(ray: Ray, box: Box, t: real, i: Axis)
    requires Clear(ray, box) && Upright(box)
    ensures var inv := Reciprocal(ray.d);
            (Le(SlabMin(box, ray.o, inv, i), Fin(t)) && Le(Fin(t), SlabMax(box, ray.o, inv, i)))
            <==> Le(box.lo.At(i), Fin(PointAt(ray, t).At(i))) && Le(Fin(PointAt(ray, t).At(i)), box.hi.At(i))
  {
    hide PointAt, Reciprocal, Slab, Vec3.At, Clear;
    var o, d := ray.o.At(i), ray.d.At(i);
    OnAxis(ray, t, i);
    if d != 0.0 {
      SlabIsInterval(box.lo.At(i), box.hi.At(i), o, d, t, 1.0 / d, PointAt(ray, t).At(i));
    } else {
      ClearOnAxis(ray, box, i);
      FlatInterval(box.lo.At(i), box.hi.At(i), o, t);
    }
  }

  lemma BetweenIffInBox(ray: Ray, box: Box, t: real)
    requires Clear(ray, box) && Upright(box)
    ensures Le(TNear(ray.o, Reciprocal(ray.d), box), Fin(t)) && Le(Fin(t), TFar(ray.o, Reciprocal(ray.d), box))
       <==> InBox(box, PointAt(ray, t))
  {
    hide SlabMin, SlabMax, Reciprocal, PointAt, Clear;
    AxisInterval(ray, box, t, 0);
    AxisInterval(ray, box, t, 1);
    AxisInterval(ray, box, t, 2);
  }

  // Up to the sign of its answer the slab test is exact: it meets the box if and only if
  // some point of the ray within range lies in it.
  lemma MeetsIffPoint(ray: Ray, box: Box)
    requires Clear(ray, box) && ray.tMax >= 0.0 && Upright(box)
    ensures MeetsBox(ray, box) <==> exists t :: 0.0 <= t <= ray.tMax && InBox(box, PointAt(ray, t))
  {
    hide TNear, TFar, InBox, Reciprocal, PointAt, Upright, Clear;
    var near := TNear(ray.o, Reciprocal(ray.d), box);
    if MeetsBox(ray, box) {
      var t := if near.Fin? && near.r >= 0.0 then near.r else 0.0;
      BetweenIffInBox(ray, box, t);
      assert InBox(box, PointAt(ray, t));
    }
    if t :| 0.0 <= t <= ray.tMax && InBox(box, PointAt(ray, t)) {
      BetweenIffInBox(ray, box, t);
    }
  }

  // A box that is entered is entered at the parameter returned, and not before.
  lemma EntryIsFirstPoint(ray: Ray, box: Box, t: real)
    requires Clear(ray, box) && Upright(box) && Enters(ray, box)
    ensures var near := IntersectAabb(ray.o, Reciprocal(ray.d), box, ray.tMax);
            && near.Fin? && 0.0 <= near.r <= ray.tMax && InBox(box, PointAt(ray, near.r))
            && (InBox(box, PointAt(ray, t)) ==> near.r <= t)
  {
    hide TNear, TFar, InBox, Reciprocal, PointAt, Upright, Clear;
    EntersIffMeetsFromOutside(ray, box);
    var near := TNear(ray.o, Reciprocal(ray.d), box);
    BetweenIffInBox(ray, box, near.r);
    BetweenIffInBox(ray, box, t);
  }

  predicate PastFace(ray: Ray, box: Box, i: Axis) {
    if ray.d.At(i) >= 0.0 then Lt(box.lo.At(i), Fin(ray.o.At(i))) else Lt(Fin(ray.o.At(i)), box.hi.At(i))
  }

  // The origin is beyond the face through which the ray comes in, on every axis; on one
  // the ray does not move along, beyond the lower face.
  ghost predicate PastEntry(ray: Ray, box: Box) {
    forall i: Axis :: PastFace(ray, box, i)
  }

  lemma SlabBehind(lo: Ext, hi: Ext, o: real, d: real, inv: real)
    requires d != 0.0 && inv * d == 1.0 && Le(lo, hi)
    ensures Lt(Min(Slab(lo, o, Fin(inv)), Slab(hi, o, Fin(inv))), Fin(0.0)) <==>
            if d > 0.0 then Lt(lo, Fin(o)) else Lt(Fin(o), hi)
  {
    Sign(d, inv);
    SlabAgainst(lo, o, d, 0.0, inv, o);
    SlabAgainst(hi, o, d, 0.0, inv, o);
    hide Slab;
  }

  lemma AxisBehind(ray: Ray, box: Box, i: Axis)
    requires Clear(ray, box) && Upright(box)
    ensures Lt(SlabMin(box, ray.o, Reciprocal(ray.d), i), Fin(0.0)) <==> PastFace(ray, box, i)
  {
    hide Reciprocal, Slab, Vec3.At, PointAt, Clear;
    var o, d := ray.o.At(i), ray.d.At(i);
    OnAxis(ray, 0.0, i);
    if d != 0.0 {
      SlabBehind(box.lo.At(i), box.hi.At(i), o, d, 1.0 / d);
    } else {
      ClearOnAxis(ray, box, i);
      FlatInterval(box.lo.At(i), box.hi.At(i), o, 0.0);
    }
  }

  lemma StartsInsideIffPastEntry(ray: Ray, box: Box)
    requires Clear(ray, box) && Upright(box)
    ensures StartsInside(ray, box) <==> PastEntry(ray, box)
  {
    hide SlabMin, Reciprocal, Clear, PastFace;
    AxisBehind(ray, box, 0);
    AxisBehind(ray, box, 1);
    AxisBehind(ray, box, 2);
  }

  lemma OriginIsPointZero(ray: Ray)
    ensures PointAt(ray, 0.0) == ray.o
  {
  }

  // The boxes met but not entered are those that hold the origin, off their entry faces.
  lemma MissedIffOriginInside(ray: Ray, box: Box)
    requires Clear(ray, box) && ray.tMax >= 0.0 && Upright(box)
    ensures MeetsBox(ray, box) && !Enters(ray, box) <==> InBox(box, ray.o) && PastEntry(ray, box)
  {
    hide TNear, TFar, InBox, Reciprocal, PointAt, Upright, PastEntry, Enters, Clear;
    EntersIffMeetsFromOutside(ray, box);
    StartsInsideIffPastEntry(ray, box);
    BetweenIffInBox(ray, box, 0.0);
    OriginIsPointZero(ray);
  }
}
