// What the local matrices do to points: scale along the axes, turn as the quaternion says,
// then move.
module Rotations {
  import opened Geometry
  import opened VectorLaws
  import opened Matrices

  function AxisOf(q: Quat): Vec3 {
    Vec3(q.x, q.y, q.z)
  }

  // v turned by q, told with cross products only.
  function Turned(q: Quat, v: Vec3): Vec3 {
    var u := AxisOf(q);
    Add(v, Add(Scale(2.0 * q.w, Cross(u, v)), Scale(2.0, Cross(u, Cross(u, v)))))
  }

  lemma RotationRow(x: real, y: real, z: real, w: real, a: real, b: real, c: real)
    ensures Row(1.0 - (2.0 * (y * y) + 2.0 * (z * z)), 2.0 * (x * y) - 2.0 * (w * z),
                2.0 * (x * z) + 2.0 * (w * y), 0.0, a, b, c, 1.0)
         == a + (2.0 * w * Det(y, z, b, c) + 2.0 * Det(y, z, Det(z, x, c, a), Det(x, y, a, b)))
  {
  }

  lemma Commuted(a1: real, a2: real, a3: real, b1: real, b2: real, b3: real)
    ensures Row(a1, a2, a3, 0.0, b1, b2, b3, 1.0) == Row(a2, a3, a1, 0.0, b2, b3, b1, 1.0)
  {
  }

  lemma Twice(x: real, y: real)
    ensures x * (y + y) == 2.0 * (x * y) == 2.0 * (y * x)
  {
  }

  lemma Substituted(k: real, x: real, y: real)
    requires x == y
    ensures k * x == k * y
  {
  }

  lemma RotationRowOf(x: real, y: real, z: real, w: real, a: real, b: real, c: real,
                      e0: real, e4: real, e8: real, cx: real, dx: real)
    requires e0 == 1.0 - (y * (y + y) + z * (z + z))
    requires e4 == x * (y + y) - w * (z + z) && e8 == x * (z + z) + w * (y + y)
    requires cx == Det(y, z, b, c) && dx == Det(y, z, Det(z, x, c, a), Det(x, y, a, b))
    ensures Row(e0, e4, e8, 0.0, a, b, c, 1.0) == a + (2.0 * w * cx + 2.0 * dx)
  {
    hide Row, Det;
    RotationRow(x, y, z, w, a, b, c);
    Substituted(2.0 * w, cx, Det(y, z, b, c));
    assert e0 == 1.0 - (2.0 * (y * y) + 2.0 * (z * z));
    assert e4 == 2.0 * (x * y) - 2.0 * (w * z);
    assert e8 == 2.0 * (x * z) + 2.0 * (w * y);
  }

  lemma Doubled(x: real, y: real)
    ensures x * (y + y) == y * (x + x)
  {
  }

  lemma RotationEntries(q: Quat)
    ensures var x, y, z, w := q.x, q.y, q.z, q.w; var m := Rotation(q);
            && m.e0 == 1.0 - (y * (y + y) + z * (z + z)) && m.e5 == 1.0 - (z * (z + z) + x * (x + x))
            && m.e10 == 1.0 - (x * (x + x) + y * (y + y))
            && m.e4 == x * (y + y) - w * (z + z) && m.e8 == x * (z + z) + w * (y + y)
            && m.e9 == y * (z + z) - w * (x + x) && m.e1 == y * (x + x) + w * (z + z)
            && m.e2 == z * (x + x) - w * (y + y) && m.e6 == z * (y + y) + w * (x + x)
            && m.e12 == 0.0 && m.e13 == 0.0 && m.e14 == 0.0
  {
    Doubled(q.x, q.y);
    Doubled(q.y, q.z);
    Doubled(q.z, q.x);
  }

  lemma TurnedParts(v: Vec3, w: real, c: Vec3, d: Vec3)
    ensures Add(v, Add(Scale(2.0 * w, c), Scale(2.0, d)))
         == Vec3(v.x + (2.0 * w * c.x + 2.0 * d.x), v.y + (2.0 * w * c.y + 2.0 * d.y),
                 v.z + (2.0 * w * c.z + 2.0 * d.z))
  {
  }

  // The matrix of a quaternion turns as the quaternion says.
  lemma RotationTurns(q: Quat, v: Vec3)
    ensures TransformVector(Rotation(q), v) == Turned(q, v)
  {
    hide Row, Det, Add, Scale, Rotation;
    var m, u := Rotation(q), AxisOf(q);
    var c := Cross(u, v);
    var d := Cross(u, c);
    RotationEntries(q);
    RotationRowOf(q.x, q.y, q.z, q.w, v.x, v.y, v.z, m.e0, m.e4, m.e8, c.x, d.x);
    RotationRowOf(q.y, q.z, q.x, q.w, v.y, v.z, v.x, m.e5, m.e9, m.e1, c.y, d.y);
    RotationRowOf(q.z, q.x, q.y, q.w, v.z, v.x, v.y, m.e10, m.e2, m.e6, c.z, d.z);
    Commuted(m.e1, m.e5, m.e9, v.x, v.y, v.z);
    Commuted(m.e2, m.e6, m.e10, v.x, v.y, v.z);
    Commuted(m.e6, m.e10, m.e2, v.y, v.z, v.x);
    TurnedParts(v, q.w, c, d);
  }

  // ------------------------------------------------------------------- scale, turn, move

  function Stretched(s: Vec3, v: Vec3): Vec3 {
    Vec3(s.x * v.x, s.y * v.y, s.z * v.z)
  }

  lemma StretchedRow(a: real, b: real, c: real, p: real, s: Vec3, v: Vec3, sa: real, sb: real, sc: real, w: Vec3)
    requires sa == a * s.x && sb == b * s.y && sc == c * s.z && w == Stretched(s, v)
    ensures Row(sa, sb, sc, p, v.x, v.y, v.z, 1.0) == p + Row(a, b, c, 0.0, w.x, w.y, w.z, 1.0)
  {
  }

  lemma RotationIsLinear(q: Quat)
    ensures Rotation(q).e12 == 0.0 && Rotation(q).e13 == 0.0 && Rotation(q).e14 == 0.0 && Affine(Rotation(q))
  {
  }

  lemma AddIs(p: Vec3, q: Vec3)
    ensures Add(p, q) == Vec3(p.x + q.x, p.y + q.y, p.z + q.z)
  {
  }

  lemma ComposeMoves(p: Vec3, q: Quat, s: Vec3, v: Vec3)
    ensures TransformVector(Compose(p, Rotation(q), s), v) == Add(p, Turned(q, Stretched(s, v)))
  {
    hide Row, Turned, Add, Rotation;
    var r := Rotation(q);
    RotationIsLinear(q);
    var m, w := Compose(p, r, s), Stretched(s, v);
    StretchedRow(r.e0, r.e4, r.e8, p.x, s, v, m.e0, m.e4, m.e8, w);
    StretchedRow(r.e1, r.e5, r.e9, p.y, s, v, m.e1, m.e5, m.e9, w);
    StretchedRow(r.e2, r.e6, r.e10, p.z, s, v, m.e2, m.e6, m.e10, w);
    RotationTurns(q, Stretched(s, v));
    AddIs(p, Turned(q, Stretched(s, v)));
  }

  // ---------------------------------------------------------------- products of rotations

  // One component of the vector part, and the scalar part.
  function VectorPart(a1: real, a2: real, a3: real, a4: real, b1: real, b2: real, b3: real, b4: real): real {
    a1 * b4 + a4 * b1 + a2 * b3 - a3 * b2
  }

  function ScalarPart(a: Quat, b: Quat): real {
    a.w * b.w - a.x * b.x - a.y * b.y - a.z * b.z
  }

  // Quaternion.multiplyQuaternions.
  function Hamilton(a: Quat, b: Quat): Quat {
    Quat(VectorPart(a.x, a.y, a.z, a.w, b.x, b.y, b.z, b.w),
         VectorPart(a.y, a.z, a.x, a.w, b.y, b.z, b.x, b.w),
         VectorPart(a.z, a.x, a.y, a.w, b.z, b.x, b.y, b.w), ScalarPart(a, b))
  }

  function Conjugate(q: Quat): Quat {
    Quat(-q.x, -q.y, -q.z, q.w)
  }

  function Pure(v: Vec3): Quat {
    Quat(v.x, v.y, v.z, 0.0)
  }

  function Square(q: Quat): real {
    q.x * q.x + q.y * q.y + q.z * q.z + q.w * q.w
  }

  function Product3(x: real, y: real, z: real): real {
    x * y * z
  }

  lemma Spread(a1: real, a2: real, a3: real, a4: real, b1: real, b2: real, b3: real, b4: real, k: real)
    ensures VectorPart(a1, a2, a3, a4, b1, b2, b3, b4) * k
         == Product3(a1, b4, k) + Product3(a4, b1, k) + Product3(a2, b3, k) - Product3(a3, b2, k)
    ensures k * VectorPart(a1, a2, a3, a4, b1, b2, b3, b4)
         == Product3(k, a1, b4) + Product3(k, a4, b1) + Product3(k, a2, b3) - Product3(k, a3, b2)
  {
  }

  lemma SpreadScalar(a: Quat, b: Quat, k: real)
    ensures ScalarPart(a, b) * k
         == Product3(a.w, b.w, k) - Product3(a.x, b.x, k) - Product3(a.y, b.y, k) - Product3(a.z, b.z, k)
    ensures k * ScalarPart(a, b)
         == Product3(k, a.w, b.w) - Product3(k, a.x, b.x) - Product3(k, a.y, b.y) - Product3(k, a.z, b.z)
  {
  }

  lemma HamiltonTimes(a: Quat, b: Quat, k: real)
    ensures var h := Hamilton(a, b);
            && h.x * k == Product3(a.x, b.w, k) + Product3(a.w, b.x, k) + Product3(a.y, b.z, k) - Product3(a.z, b.y, k)
            && k * h.x == Product3(k, a.x, b.w) + Product3(k, a.w, b.x) + Product3(k, a.y, b.z) - Product3(k, a.z, b.y)
            && h.y * k == Product3(a.y, b.w, k) + Product3(a.w, b.y, k) + Product3(a.z, b.x, k) - Product3(a.x, b.z, k)
            && k * h.y == Product3(k, a.y, b.w) + Product3(k, a.w, b.y) + Product3(k, a.z, b.x) - Product3(k, a.x, b.z)
            && h.z * k == Product3(a.z, b.w, k) + Product3(a.w, b.z, k) + Product3(a.x, b.y, k) - Product3(a.y, b.x, k)
            && k * h.z == Product3(k, a.z, b.w) + Product3(k, a.w, b.z) + Product3(k, a.x, b.y) - Product3(k, a.y, b.x)
            && h.w * k == Product3(a.w, b.w, k) - Product3(a.x, b.x, k) - Product3(a.y, b.y, k) - Product3(a.z, b.z, k)
            && k * h.w == Product3(k, a.w, b.w) - Product3(k, a.x, b.x) - Product3(k, a.y, b.y) - Product3(k, a.z, b.z)
  {
    hide Product3, VectorPart, ScalarPart;
    Spread(a.x, a.y, a.z, a.w, b.x, b.y, b.z, b.w, k);
    Spread(a.y, a.z, a.x, a.w, b.y, b.z, b.x, b.w, k);
    Spread(a.z, a.x, a.y, a.w, b.z, b.x, b.y, b.w, k);
    SpreadScalar(a, b, k);
  }

  // Reading the three axes in another turn of their cycle changes nothing.
  function Cycled(q: Quat): Quat {
    Quat(q.y, q.z, q.x, q.w)
  }

  lemma CycledScalar(a: Quat, b: Quat)
    ensures ScalarPart(Cycled(a), Cycled(b)) == ScalarPart(a, b)
  {
  }

  lemma CycledProduct(a: Quat, b: Quat)
    ensures Hamilton(Cycled(a), Cycled(b)) == Cycled(Hamilton(a, b))
  {
    hide VectorPart, ScalarPart;
    CycledScalar(a, b);
  }

  lemma HamiltonIs(a: Quat, b: Quat)
    ensures Hamilton(a, b).x == a.x * b.w + a.w * b.x + a.y * b.z - a.z * b.y
    ensures Hamilton(a, b).w == a.w * b.w - a.x * b.x - a.y * b.y - a.z * b.z
  {
  }

  lemma AssociativeXW(a: Quat, b: Quat, c: Quat)
    ensures Hamilton(Hamilton(a, b), c).x == Hamilton(a, Hamilton(b, c)).x
    ensures Hamilton(Hamilton(a, b), c).w == Hamilton(a, Hamilton(b, c)).w
  {
    hide Product3, Hamilton;
    HamiltonIs(Hamilton(a, b), c);
    HamiltonIs(a, Hamilton(b, c));
    HamiltonTimes(a, b, c.x);
    HamiltonTimes(a, b, c.y);
    HamiltonTimes(a, b, c.z);
    HamiltonTimes(a, b, c.w);
    HamiltonTimes(b, c, a.x);
    HamiltonTimes(b, c, a.y);
    HamiltonTimes(b, c, a.z);
    HamiltonTimes(b, c, a.w);
  }

  lemma Associative(a: Quat, b: Quat, c: Quat)
    ensures Hamilton(Hamilton(a, b), c) == Hamilton(a, Hamilton(b, c))
  {
    hide Hamilton;
    var a', b', c' := Cycled(a), Cycled(b), Cycled(c);
    AssociativeXW(a, b, c);
    AssociativeXW(a', b', c');
    AssociativeXW(Cycled(a'), Cycled(b'), Cycled(c'));
    CycledProduct(a, b);
    CycledProduct(b, c);
    CycledProduct(a', b');
    CycledProduct(b', c');
    CycledProduct(Hamilton(a, b), c);
    CycledProduct(a, Hamilton(b, c));
    CycledProduct(Cycled(Hamilton(a, b)), c');
    CycledProduct(a', Cycled(Hamilton(b, c)));
  }

  lemma Signs(x: real, y: real)
    ensures (-x) * y == -(x * y) && x * (-y) == -(x * y) && (-x) * (-y) == x * y
  {
  }

  lemma ConjugateX(a: Quat, b: Quat)
    ensures Hamilton(Conjugate(b), Conjugate(a)).x == -Hamilton(a, b).x
  {
    Signs(b.x, a.w);
    Signs(a.x, b.w);
    Signs(b.y, a.z);
    Signs(b.z, a.y);
  }

  lemma ConjugateW(a: Quat, b: Quat)
    ensures Hamilton(Conjugate(b), Conjugate(a)).w == Hamilton(a, b).w
  {
    Signs(b.x, a.x);
    Signs(b.y, a.y);
    Signs(b.z, a.z);
  }

  lemma ConjugateProduct(a: Quat, b: Quat)
    ensures Conjugate(Hamilton(a, b)) == Hamilton(Conjugate(b), Conjugate(a))
  {
    hide Hamilton;
    var a', b' := Cycled(a), Cycled(b);
    ConjugateX(a, b);
    ConjugateX(a', b');
    ConjugateX(Cycled(a'), Cycled(b'));
    CycledProduct(a, b);
    CycledProduct(a', b');
    CycledProduct(Conjugate(b), Conjugate(a));
    CycledProduct(Conjugate(b'), Conjugate(a'));
    ConjugateW(a, b);
  }

  lemma SquareIs(q: Quat)
    ensures ScalarPart(q, Conjugate(q)) == Square(q) && AxisOf(Hamilton(q, Conjugate(q))) == ZERO3
  {
    Signs(q.x, q.x);
    Signs(q.y, q.y);
    Signs(q.z, q.z);
  }

  lemma RealTimes(k: real, a: Quat, c: Quat)
    ensures ScalarPart(a, Hamilton(Quat(0.0, 0.0, 0.0, k), c)) == k * ScalarPart(a, c)
  {
    assert Hamilton(Quat(0.0, 0.0, 0.0, k), c) == Quat(k * c.x, k * c.y, k * c.z, k * c.w);
  }

  lemma SquareProduct(a: Quat, b: Quat)
    ensures Square(Hamilton(a, b)) == Square(a) * Square(b)
  {
    hide VectorPart, ScalarPart, Square, Conjugate;
    var a', b' := Conjugate(a), Conjugate(b);
    SquareIs(Hamilton(a, b));
    ConjugateProduct(a, b);
    Associative(a, b, Hamilton(b', a'));
    Associative(b, b', a');
    SquareIs(b);
    RealTimes(Square(b), a, a');
    SquareIs(a);
  }

  lemma SandwichRow(x: real, y: real, z: real, w: real, a: real, b: real, c: real)
    ensures (w * a + y * c - z * b) * w - (-(x * a + y * b + z * c)) * x - (w * b + z * a - x * c) * z
            + (w * c + x * b - y * a) * y
         == (x * x - y * y - z * z + w * w) * a + (2.0 * (x * y) - 2.0 * (w * z)) * b
            + (2.0 * (x * z) + 2.0 * (w * y)) * c
  {
  }

  lemma PureProduct(q: Quat, v: Vec3)
    ensures var h := Hamilton(q, Pure(v));
            && h.x == q.w * v.x + q.y * v.z - q.z * v.y && h.y == q.w * v.y + q.z * v.x - q.x * v.z
            && h.z == q.w * v.z + q.x * v.y - q.y * v.x && h.w == -(q.x * v.x + q.y * v.y + q.z * v.z)
  {
  }

  lemma ConjugateFactor(h: Quat, q: Quat)
    ensures Hamilton(h, Conjugate(q)).x == h.x * q.w - h.w * q.x - h.y * q.z + h.z * q.y
  {
  }

  lemma SandwichIs(q: Quat, v: Vec3)
    ensures Hamilton(Hamilton(q, Pure(v)), Conjugate(q)).x
         == (q.x * q.x - q.y * q.y - q.z * q.z + q.w * q.w) * v.x + (2.0 * (q.x * q.y) - 2.0 * (q.w * q.z)) * v.y
            + (2.0 * (q.x * q.z) + 2.0 * (q.w * q.y)) * v.z
  {
    PureProduct(q, v);
    SandwichRow(q.x, q.y, q.z, q.w, v.x, v.y, v.z);
    var h := Hamilton(q, Pure(v));
    ConjugateFactor(h, q);
    hide *;
  }

  lemma FirstRow(q: Quat)
    requires Square(q) == 1.0
    ensures var m := Rotation(q);
            && m.e0 == q.x * q.x - q.y * q.y - q.z * q.z + q.w * q.w
            && m.e4 == 2.0 * (q.x * q.y) - 2.0 * (q.w * q.z)
            && m.e8 == 2.0 * (q.x * q.z) + 2.0 * (q.w * q.y)
            && m.e12 == 0.0
  {
    Twice(q.y, q.y);
    Twice(q.z, q.z);
    Twice(q.x, q.y);
    Twice(q.x, q.z);
    Twice(q.w, q.y);
    Twice(q.w, q.z);
    RotationEntries(q);
    hide Rotation;
  }

  lemma FirstOf(m: Mat4, v: Vec3)
    ensures TransformVector(m, v).x == m.e0 * v.x + m.e4 * v.y + m.e8 * v.z + m.e12
  {
  }

  lemma SandwichX(q: Quat, v: Vec3)
    requires Square(q) == 1.0
    ensures Hamilton(Hamilton(q, Pure(v)), Conjugate(q)).x == Turned(q, v).x
  {
    hide Hamilton, Turned, TransformVector;
    SandwichIs(q, v);
    RotationTurns(q, v);
    FirstRow(q);
    var m := Rotation(q);
    hide Rotation;
    FirstOf(m, v);
  }

  lemma SandwichW(q: Quat, v: Vec3)
    ensures Hamilton(Hamilton(q, Pure(v)), Conjugate(q)).w == 0.0
  {
  }

  lemma CycledTurn(q: Quat, v: Vec3)
    ensures var t := Turned(q, v); Turned(Cycled(q), Vec3(v.y, v.z, v.x)) == Vec3(t.y, t.z, t.x)
  {
    hide Det, Add, Scale;
    var u, v', u' := AxisOf(q), Vec3(v.y, v.z, v.x), AxisOf(Cycled(q));
    TurnedParts(v, q.w, Cross(u, v), Cross(u, Cross(u, v)));
    TurnedParts(v', q.w, Cross(u', v'), Cross(u', Cross(u', v')));
  }

  // For a unit quaternion turning is conjugation.
  lemma TurningIsConjugation(q: Quat, v: Vec3)
    requires Square(q) == 1.0
    ensures Hamilton(Hamilton(q, Pure(v)), Conjugate(q)) == Pure(Turned(q, v))
  {
    hide Hamilton, Turned;
    var q', v' := Cycled(q), Vec3(v.y, v.z, v.x);
    var q'', v'' := Cycled(q'), Vec3(v'.y, v'.z, v'.x);
    SandwichX(q, v);
    SandwichX(q', v');
    SandwichX(q'', v'');
    CycledProduct(q, Pure(v));
    CycledProduct(Hamilton(q, Pure(v)), Conjugate(q));
    CycledProduct(q', Pure(v'));
    CycledProduct(Hamilton(q', Pure(v')), Conjugate(q'));
    CycledTurn(q, v);
    CycledTurn(q', v');
    SandwichW(q, v);
  }

  // A product of unit quaternions turns by its right factor, then by its left one.
  lemma ProductTurnsTwice(p: Quat, q: Quat, v: Vec3)
    requires Square(p) == 1.0 && Square(q) == 1.0
    ensures Square(Hamilton(p, q)) == 1.0
    ensures Turned(Hamilton(p, q), v) == Turned(p, Turned(q, v))
  {
    hide Hamilton, Turned, Square, Conjugate;
    var p', q', w := Conjugate(p), Conjugate(q), Pure(v);
    SquareProduct(p, q);
    TurningIsConjugation(Hamilton(p, q), v);
    TurningIsConjugation(q, v);
    TurningIsConjugation(p, Turned(q, v));
    ConjugateProduct(p, q);
    Associative(p, q, w);
    Associative(p, Hamilton(q, w), Hamilton(q', p'));
    Associative(Hamilton(q, w), q', p');
    Associative(p, Hamilton(Hamilton(q, w), q'), p');
  }

  lemma UnitPoints(m: Mat4)
    ensures TransformVector(m, ZERO3) == Vec3(m.e12, m.e13, m.e14)
    ensures TransformVector(m, Vec3(1.0, 0.0, 0.0)) == Vec3(m.e0 + m.e12, m.e1 + m.e13, m.e2 + m.e14)
    ensures TransformVector(m, Vec3(0.0, 1.0, 0.0)) == Vec3(m.e4 + m.e12, m.e5 + m.e13, m.e6 + m.e14)
    ensures TransformVector(m, Vec3(0.0, 0.0, 1.0)) == Vec3(m.e8 + m.e12, m.e9 + m.e13, m.e10 + m.e14)
  {
  }

  // Affine matrices that move all points alike are equal.
  lemma PointsDetermine(m: Mat4, n: Mat4)
    requires Affine(m) && Affine(n) && forall v :: TransformVector(m, v) == TransformVector(n, v)
    ensures m == n
  {
    hide TransformVector;
    UnitPoints(m);
    UnitPoints(n);
  }

  // The matrix of a product of unit quaternions is the product of their matrices.
  lemma RotationOfProduct(p: Quat, q: Quat)
    requires Square(p) == 1.0 && Square(q) == 1.0
    ensures Rotation(Hamilton(p, q)) == Multiply(Rotation(p), Rotation(q))
  {
    hide Rotation, TransformVector, Multiply, Hamilton, Turned, Square;
    var r, m := Rotation(Hamilton(p, q)), Multiply(Rotation(p), Rotation(q));
    RotationIsLinear(p);
    RotationIsLinear(q);
    RotationIsLinear(Hamilton(p, q));
    AffineProduct(Rotation(p), Rotation(q));
    forall v
      ensures TransformVector(r, v) == TransformVector(m, v)
    {
      ProductMovesTwice(Rotation(p), Rotation(q), v);
      RotationTurns(q, v);
      RotationTurns(p, Turned(q, v));
      RotationTurns(Hamilton(p, q), v);
      ProductTurnsTwice(p, q, v);
    }
    PointsDetermine(r, m);
  }

  lemma SquareIsDot(v: Vec3)
    ensures Square(Pure(v)) == Dot(v, v)
  {
  }

  lemma SquareOfConjugate(q: Quat)
    ensures Square(Conjugate(q)) == Square(q)
  {
    Signs(q.x, q.x);
    Signs(q.y, q.y);
    Signs(q.z, q.z);
  }

  // Turning by a unit quaternion keeps lengths.
  lemma TurningKeepsLength(q: Quat, v: Vec3)
    requires Square(q) == 1.0
    ensures Dot(Turned(q, v), Turned(q, v)) == Dot(v, v)
  {
    hide Hamilton, Turned, Conjugate;
    TurningIsConjugation(q, v);
    SquareProduct(Hamilton(q, Pure(v)), Conjugate(q));
    SquareProduct(q, Pure(v));
    SquareIsDot(v);
    SquareIsDot(Turned(q, v));
    SquareOfConjugate(q);
  }

  // ------------------------------------------------------------- what a setter leaves alone

  predicate Near(x: real, y: real) {
    -0.000001 < x - y < 0.000001
  }

  lemma NearVecIs(a: Vec3, b: Vec3)
    ensures NearVec(a, b) <==> forall i: Axis :: Near(a.At(i), b.At(i))
  {
    assert Near(a.At(0), b.At(0)) <==> Near(a.x, b.x);
    assert Near(a.At(1), b.At(1)) <==> Near(a.y, b.y);
    assert Near(a.At(2), b.At(2)) <==> Near(a.z, b.z);
  }

  function Opposite(q: Quat): Quat {
    Quat(-q.x, -q.y, -q.z, -q.w)
  }

  lemma SignsTwice(x: real, y: real)
    ensures (-x) * (-y + -y) == x * (y + y)
  {
  }

  lemma OppositeTurns(q: Quat)
    ensures Rotation(Opposite(q)) == Rotation(q)
  {
    hide Rotation;
    SignsTwice(q.x, q.x);
    SignsTwice(q.x, q.y);
    SignsTwice(q.x, q.z);
    SignsTwice(q.y, q.y);
    SignsTwice(q.y, q.z);
    SignsTwice(q.z, q.z);
    SignsTwice(q.w, q.x);
    SignsTwice(q.w, q.y);
    SignsTwice(q.w, q.z);
    SignsTwice(q.y, q.x);
    SignsTwice(q.z, q.x);
    SignsTwice(q.z, q.y);
    RotationEntries(q);
    RotationEntries(Opposite(q));
    RotationIsLinear(q);
    RotationIsLinear(Opposite(q));
  }

  // Rotations count as equal if the quaternion is near the other or its opposite, which
  // turns alike.
  lemma NearQuatIs(a: Quat, b: Quat)
    ensures NearQuat(a, b) <==>
            exists c: Quat :: c in {b, Opposite(b)} &&
              Near(a.x, c.x) && Near(a.y, c.y) && Near(a.z, c.z) && Near(a.w, c.w)
    ensures Rotation(Opposite(b)) == Rotation(b)
  {
    if NearQuat(a, b) {
      var c := if Near(a.x, b.x) && Near(a.y, b.y) && Near(a.z, b.z) && Near(a.w, b.w) then b else Opposite(b);
      assert c in {b, Opposite(b)} && Near(a.x, c.x) && Near(a.y, c.y) && Near(a.z, c.z) && Near(a.w, c.w);
    }
    OppositeTurns(b);
  }
}
