// Column-major 4x4 matrices and quaternions, as far as the transform hierarchy uses them.
module Matrices {
  import opened Geometry

  datatype Quat = Quat(x: real, y: real, z: real, w: real)

  datatype Mat4 = Mat4(e0: real, e1: real, e2: real, e3: real, e4: real, e5: real, e6: real, e7: real,
                       e8: real, e9: real, e10: real, e11: real, e12: real, e13: real, e14: real, e15: real)

  const IDENTITY := Mat4(1.0, 0.0, 0.0, 0.0, 0.0, 1.0, 0.0, 0.0, 0.0, 0.0, 1.0, 0.0, 0.0, 0.0, 0.0, 1.0)
  const ZERO3 := Vec3(0.0, 0.0, 0.0)
  const ONE3 := Vec3(1.0, 1.0, 1.0)
  const NO_ROTATION := Quat(0.0, 0.0, 0.0, 1.0)
  const EPSILON := 0.000001

  function Abs(x: real): real { if x < 0.0 then -x else x }

  // Vector3.equals and Quaternion.equals: equality up to EPSILON, and for rotations up to sign.
  predicate NearVec(a: Vec3, b: Vec3) {
    Abs(a.x - b.x) < EPSILON && Abs(a.y - b.y) < EPSILON && Abs(a.z - b.z) < EPSILON
  }

  predicate NearQuat(a: Quat, b: Quat) {
    || (Abs(a.x - b.x) < EPSILON && Abs(a.y - b.y) < EPSILON && Abs(a.z - b.z) < EPSILON && Abs(a.w - b.w) < EPSILON)
    || (Abs(a.x + b.x) < EPSILON && Abs(a.y + b.y) < EPSILON && Abs(a.z + b.z) < EPSILON && Abs(a.w + b.w) < EPSILON)
  }

  function Rotation(q: Quat): Mat4 {
    var x2, y2, z2 := q.x + q.x, q.y + q.y, q.z + q.z;
    var xx, xy, xz := q.x * x2, q.x * y2, q.x * z2;
    var yy, yz, zz := q.y * y2, q.y * z2, q.z * z2;
    var wx, wy, wz := q.w * x2, q.w * y2, q.w * z2;
    Mat4(1.0 - (yy + zz), xy + wz, xz - wy, 0.0,
         xy - wz, 1.0 - (xx + zz), yz + wx, 0.0,
         xz + wy, yz - wx, 1.0 - (xx + yy), 0.0,
         0.0, 0.0, 0.0, 1.0)
  }

  function Compose(p: Vec3, r: Mat4, s: Vec3): Mat4 {
    Mat4(r.e0 * s.x, r.e1 * s.x, r.e2 * s.x, 0.0,
         r.e4 * s.y, r.e5 * s.y, r.e6 * s.y, 0.0,
         r.e8 * s.z, r.e9 * s.z, r.e10 * s.z, 0.0,
         p.x, p.y, p.z, 1.0)
  }

  // Row (a1 .. a4) times column (b1 .. b4).
  function Row(a1: real, a2: real, a3: real, a4: real, b1: real, b2: real, b3: real, b4: real): real {
    a1 * b1 + a2 * b2 + a3 * b3 + a4 * b4
  }

  function Multiply(a: Mat4, b: Mat4): Mat4 {
    Mat4(Row(a.e0, a.e4, a.e8, a.e12, b.e0, b.e1, b.e2, b.e3),
         Row(a.e1, a.e5, a.e9, a.e13, b.e0, b.e1, b.e2, b.e3),
         Row(a.e2, a.e6, a.e10, a.e14, b.e0, b.e1, b.e2, b.e3),
         Row(a.e3, a.e7, a.e11, a.e15, b.e0, b.e1, b.e2, b.e3),
         Row(a.e0, a.e4, a.e8, a.e12, b.e4, b.e5, b.e6, b.e7),
         Row(a.e1, a.e5, a.e9, a.e13, b.e4, b.e5, b.e6, b.e7),
         Row(a.e2, a.e6, a.e10, a.e14, b.e4, b.e5, b.e6, b.e7),
         Row(a.e3, a.e7, a.e11, a.e15, b.e4, b.e5, b.e6, b.e7),
         Row(a.e0, a.e4, a.e8, a.e12, b.e8, b.e9, b.e10, b.e11),
         Row(a.e1, a.e5, a.e9, a.e13, b.e8, b.e9, b.e10, b.e11),
         Row(a.e2, a.e6, a.e10, a.e14, b.e8, b.e9, b.e10, b.e11),
         Row(a.e3, a.e7, a.e11, a.e15, b.e8, b.e9, b.e10, b.e11),
         Row(a.e0, a.e4, a.e8, a.e12, b.e12, b.e13, b.e14, b.e15),
         Row(a.e1, a.e5, a.e9, a.e13, b.e12, b.e13, b.e14, b.e15),
         Row(a.e2, a.e6, a.e10, a.e14, b.e12, b.e13, b.e14, b.e15),
         Row(a.e3, a.e7, a.e11, a.e15, b.e12, b.e13, b.e14, b.e15))
  }

  function TransformVector(m: Mat4, v: Vec3): Vec3 {
    Vec3(Row(m.e0, m.e4, m.e8, m.e12, v.x, v.y, v.z, 1.0),
         Row(m.e1, m.e5, m.e9, m.e13, v.x, v.y, v.z, 1.0),
         Row(m.e2, m.e6, m.e10, m.e14, v.x, v.y, v.z, 1.0))
  }

  predicate Affine(m: Mat4) {
    m.e3 == 0.0 && m.e7 == 0.0 && m.e11 == 0.0 && m.e15 == 1.0
  }

  lemma AffineProduct(a: Mat4, b: Mat4)
    requires Affine(a) && Affine(b)
    ensures Affine(Multiply(a, b))
  {
  }

  function Prod(a: real, b: real): real { a * b }

  lemma RowIs(a1: real, a2: real, a3: real, a4: real, b1: real, b2: real, b3: real)
    ensures Row(a1, a2, a3, a4, b1, b2, b3, 1.0) == Prod(a1, b1) + Prod(a2, b2) + Prod(a3, b3) + a4
  {
  }

  lemma Expand(a1: real, a2: real, a3: real, a4: real, b1: real, b2: real, b3: real, x: real)
    ensures Prod(Row(a1, a2, a3, a4, b1, b2, b3, 0.0), x) == Prod(a1, b1 * x) + Prod(a2, b2 * x) + Prod(a3, b3 * x)
  {
  }

  lemma RowSum(a: real, b1: real, b2: real, b3: real, b4: real, v: Vec3)
    ensures Prod(a, Row(b1, b2, b3, b4, v.x, v.y, v.z, 1.0))
         == Prod(a, b1 * v.x) + Prod(a, b2 * v.y) + Prod(a, b3 * v.z) + Prod(a, b4)
  {
  }

  lemma RowOfProduct(a1: real, a2: real, a3: real, a4: real, b: Mat4, v: Vec3)
    requires Affine(b)
    ensures Row(Row(a1, a2, a3, a4, b.e0, b.e1, b.e2, b.e3), Row(a1, a2, a3, a4, b.e4, b.e5, b.e6, b.e7),
                Row(a1, a2, a3, a4, b.e8, b.e9, b.e10, b.e11), Row(a1, a2, a3, a4, b.e12, b.e13, b.e14, b.e15),
                v.x, v.y, v.z, 1.0)
         == Row(a1, a2, a3, a4, Row(b.e0, b.e4, b.e8, b.e12, v.x, v.y, v.z, 1.0),
                Row(b.e1, b.e5, b.e9, b.e13, v.x, v.y, v.z, 1.0),
                Row(b.e2, b.e6, b.e10, b.e14, v.x, v.y, v.z, 1.0), 1.0)
  {
    hide Row, Prod;
    RowIs(Row(a1, a2, a3, a4, b.e0, b.e1, b.e2, 0.0), Row(a1, a2, a3, a4, b.e4, b.e5, b.e6, 0.0),
          Row(a1, a2, a3, a4, b.e8, b.e9, b.e10, 0.0), Row(a1, a2, a3, a4, b.e12, b.e13, b.e14, 1.0), v.x, v.y, v.z);
    RowIs(a1, a2, a3, a4, b.e12, b.e13, b.e14);
    RowIs(a1, a2, a3, a4, Row(b.e0, b.e4, b.e8, b.e12, v.x, v.y, v.z, 1.0),
          Row(b.e1, b.e5, b.e9, b.e13, v.x, v.y, v.z, 1.0), Row(b.e2, b.e6, b.e10, b.e14, v.x, v.y, v.z, 1.0));
    Expand(a1, a2, a3, a4, b.e0, b.e1, b.e2, v.x);
    Expand(a1, a2, a3, a4, b.e4, b.e5, b.e6, v.y);
    Expand(a1, a2, a3, a4, b.e8, b.e9, b.e10, v.z);
    RowSum(a1, b.e0, b.e4, b.e8, b.e12, v);
    RowSum(a2, b.e1, b.e5, b.e9, b.e13, v);
    RowSum(a3, b.e2, b.e6, b.e10, b.e14, v);
  }

  // Moving a point by a product is moving it by one factor after the other.
  lemma ProductMovesTwice(a: Mat4, b: Mat4, v: Vec3)
    requires Affine(b)
    ensures TransformVector(Multiply(a, b), v) == TransformVector(a, TransformVector(b, v))
  {
    RowOfProduct(a.e0, a.e4, a.e8, a.e12, b, v);
    RowOfProduct(a.e1, a.e5, a.e9, a.e13, b, v);
    RowOfProduct(a.e2, a.e6, a.e10, a.e14, b, v);
  }
}
