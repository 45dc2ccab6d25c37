// Vectors over the reals, reals extended with the two infinities, and
// axis-aligned boxes. Box bounds need the infinities because the builder starts
// its min/max folds from them and an empty scene leaves them in the root record.
module Geometry {
  type Axis = i: int | 0 <= i < 3 witness 0

  datatype Vec3 = Vec3(x: real, y: real, z: real) {
    function At(i: Axis): real {
      if i == 0 then x else if i == 1 then y else z
    }
  }

  function Add(a: Vec3, b: Vec3): Vec3 {
    Vec3(a.x + b.x, a.y + b.y, a.z + b.z)
  }

  function Sub(a: Vec3, b: Vec3): Vec3 {
    Vec3(a.x - b.x, a.y - b.y, a.z - b.z)
  }

  function Scale(k: real, a: Vec3): Vec3 {
    Vec3(k * a.x, k * a.y, k * a.z)
  }

  function Dot(a: Vec3, b: Vec3): real {
    a.x * b.x + a.y * b.y + a.z * b.z
  }

  function Det(a: real, b: real, c: real, d: real): real {
    a * d - b * c
  }

  function Cross(a: Vec3, b: Vec3): Vec3 {
    Vec3(Det(a.y, a.z, b.y, b.z), Det(a.z, a.x, b.z, b.x), Det(a.x, a.y, b.x, b.y))
  }

  // The volume spanned by three points and the origin: positive if they turn
  // counter-clockwise as seen from outside.
  function Volume(a: Vec3, b: Vec3, c: Vec3): real {
    Dot(a, Cross(b, c))
  }

  datatype Ext = NegInf | Fin(r: real) | PosInf

  predicate Le(a: Ext, b: Ext) {
    a.NegInf? || b.PosInf? || (a.Fin? && b.Fin? && a.r <= b.r)
  }

  predicate Lt(a: Ext, b: Ext) {
    !Le(b, a)
  }

  function Min(a: Ext, b: Ext): Ext {
    if Le(a, b) then a else b
  }

  function Max(a: Ext, b: Ext): Ext {
    if Le(a, b) then b else a
  }

  datatype Ext3 = Ext3(x: Ext, y: Ext, z: Ext) {
    function At(i: Axis): Ext {
      if i == 0 then x else if i == 1 then y else z
    }
  }

  datatype Box = Box(lo: Ext3, hi: Ext3)

  predicate InBox(b: Box, p: Vec3) {
    forall i: Axis :: Le(b.lo.At(i), Fin(p.At(i))) && Le(Fin(p.At(i)), b.hi.At(i))
  }

  // A triangle as the shader reads it.
  datatype Face = Face(v0: Vec3, v1: Vec3, v2: Vec3) {
    function Corner(k: Axis): Vec3 {
      if k == 0 then v0 else if k == 1 then v1 else v2
    }
  }

  predicate FaceInBox(b: Box, f: Face) {
    InBox(b, f.v0) && InBox(b, f.v1) && InBox(b, f.v2)
  }
}

// The laws of dot and cross products that the ray and matrix proofs lean on.
module VectorLaws {
  import opened Geometry

  // Vector equality, one coordinate at a time.
  predicate Same(p: Vec3, q: Vec3) {
    p.x == q.x && p.y == q.y && p.z == q.z
  }

  lemma SelfCross(a: Vec3, b: Vec3)
    ensures Dot(Cross(a, a), b) == 0.0
  {
  }

  lemma DotSwap(a: Vec3, b: Vec3)
    ensures Dot(a, b) == Dot(b, a)
  {
  }

  lemma Perpendicular(a: Vec3, b: Vec3)
    ensures Dot(a, Cross(a, b)) == 0.0 && Dot(b, Cross(a, b)) == 0.0
  {
  }

  lemma Rotate(a: Vec3, b: Vec3, c: Vec3)
    ensures Dot(a, Cross(b, c)) == Dot(b, Cross(c, a))
  {
  }

  lemma CrossSwap(a: Vec3, b: Vec3, c: Vec3)
    ensures Dot(c, Cross(a, b)) == -Dot(b, Cross(a, c))
  {
  }

  lemma DotCombine(u: real, a: Vec3, v: real, b: Vec3, w: real, c: Vec3, h: Vec3)
    ensures Dot(Add(Add(Scale(u, a), Scale(v, b)), Scale(w, c)), h)
         == u * Dot(a, h) + v * Dot(b, h) + w * Dot(c, h)
  {
  }

  lemma DetAdd(a: real, b: real, p: real, q: real, c: real, d: real)
    ensures Det(a + p, b + q, c, d) == Det(a, b, c, d) + Det(p, q, c, d)
  {
  }

  lemma CrossAdd(a: Vec3, b: Vec3, h: Vec3)
    ensures Cross(Add(a, b), h) == Add(Cross(a, h), Cross(b, h))
  {
    DetAdd(a.y, a.z, b.y, b.z, h.y, h.z);
    DetAdd(a.z, a.x, b.z, b.x, h.z, h.x);
    DetAdd(a.x, a.y, b.x, b.y, h.x, h.y);
  }

  lemma DetScale(k: real, a: real, b: real, c: real, d: real)
    ensures Det(k * a, k * b, c, d) == k * Det(a, b, c, d)
  {
  }

  lemma CrossScale(k: real, a: Vec3, h: Vec3)
    ensures Cross(Scale(k, a), h) == Scale(k, Cross(a, h))
  {
    DetScale(k, a.y, a.z, h.y, h.z);
    DetScale(k, a.z, a.x, h.z, h.x);
    DetScale(k, a.x, a.y, h.x, h.y);
  }

  lemma CrossCombine(u: real, a: Vec3, v: real, b: Vec3, w: real, c: Vec3, h: Vec3)
    ensures Cross(Add(Add(Scale(u, a), Scale(v, b)), Scale(w, c)), h)
         == Add(Add(Scale(u, Cross(a, h)), Scale(v, Cross(b, h))), Scale(w, Cross(c, h)))
  {
    hide *;
    CrossAdd(Add(Scale(u, a), Scale(v, b)), Scale(w, c), h);
    CrossAdd(Scale(u, a), Scale(v, b), h);
    CrossScale(u, a, h);
    CrossScale(v, b, h);
    CrossScale(w, c, h);
  }

  lemma ScaleScale(k: real, a: real, n: real, p: Vec3)
    requires n == k * a
    ensures Scale(n, p) == Scale(a, Scale(k, p))
  {
    assert Same(Scale(n, p), Scale(a, Scale(k, p)));
  }

  lemma ScaleAdd(a: real, p: Vec3, q: Vec3)
    ensures Add(Scale(a, p), Scale(a, q)) == Scale(a, Add(p, q))
  {
    assert Same(Add(Scale(a, p), Scale(a, q)), Scale(a, Add(p, q)));
  }

  lemma CancelFactor(a: real, x: real, y: real)
    requires a != 0.0 && a * x == a * y
    ensures x == y
  {
    assert a * (x - y) == 0.0;
  }

  lemma ScaleInjective(a: real, p: Vec3, q: Vec3)
    requires a != 0.0 && Scale(a, p) == Scale(a, q)
    ensures p == q
  {
    CancelFactor(a, p.x, q.x);
    CancelFactor(a, p.y, q.y);
    CancelFactor(a, p.z, q.z);
  }

  function Turn(a: Vec3): Vec3 { Vec3(a.y, a.z, a.x) }

  lemma CramerCoordinate(s: Vec3, d: Vec3, e1: Vec3, e2: Vec3)
    ensures var h := Cross(d, e2); var a := Dot(e1, h); var q := Cross(s, e1);
            a * s.x + Dot(e2, q) * d.x == Dot(s, h) * e1.x + Dot(d, q) * e2.x
  {
  }

  lemma VolumeTurns(a: Vec3, b: Vec3, c: Vec3)
    ensures Volume(a, b, c) == Volume(b, c, a) == Volume(c, a, b)
  {
    Rotate(a, b, c);
    Rotate(b, c, a);
  }

  lemma VolumeSwaps(a: Vec3, b: Vec3, c: Vec3)
    ensures Volume(b, a, c) == -Volume(a, b, c)
  {
    CrossSwap(a, c, b);
    VolumeTurns(a, b, c);
    VolumeTurns(b, a, c);
  }
}
