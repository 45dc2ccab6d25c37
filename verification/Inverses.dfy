// Matrix4.inverse, and what it undoes.
module Inverses {
  import opened Geometry
  import opened VectorLaws
  import opened Matrices

  const MIN_DETERMINANT := 0.0000000001

  function A0(m: Mat4): real {
    m.e9 * m.e14 * m.e7 - m.e13 * m.e10 * m.e7 + m.e13 * m.e6 * m.e11
    - m.e5 * m.e14 * m.e11 - m.e9 * m.e6 * m.e15 + m.e5 * m.e10 * m.e15
  }

  function A1(m: Mat4): real {
    m.e13 * m.e10 * m.e3 - m.e9 * m.e14 * m.e3 - m.e13 * m.e2 * m.e11
    + m.e1 * m.e14 * m.e11 + m.e9 * m.e2 * m.e15 - m.e1 * m.e10 * m.e15
  }

  function A2(m: Mat4): real {
    m.e5 * m.e14 * m.e3 - m.e13 * m.e6 * m.e3 + m.e13 * m.e2 * m.e7
    - m.e1 * m.e14 * m.e7 - m.e5 * m.e2 * m.e15 + m.e1 * m.e6 * m.e15
  }

  function A3(m: Mat4): real {
    m.e9 * m.e6 * m.e3 - m.e5 * m.e10 * m.e3 - m.e9 * m.e2 * m.e7
    + m.e1 * m.e10 * m.e7 + m.e5 * m.e2 * m.e11 - m.e1 * m.e6 * m.e11
  }

  function A4(m: Mat4): real {
    m.e12 * m.e10 * m.e7 - m.e8 * m.e14 * m.e7 - m.e12 * m.e6 * m.e11
    + m.e4 * m.e14 * m.e11 + m.e8 * m.e6 * m.e15 - m.e4 * m.e10 * m.e15
  }

  function A5(m: Mat4): real {
    m.e8 * m.e14 * m.e3 - m.e12 * m.e10 * m.e3 + m.e12 * m.e2 * m.e11
    - m.e0 * m.e14 * m.e11 - m.e8 * m.e2 * m.e15 + m.e0 * m.e10 * m.e15
  }

  function A6(m: Mat4): real {
    m.e12 * m.e6 * m.e3 - m.e4 * m.e14 * m.e3 - m.e12 * m.e2 * m.e7
    + m.e0 * m.e14 * m.e7 + m.e4 * m.e2 * m.e15 - m.e0 * m.e6 * m.e15
  }

  function A7(m: Mat4): real {
    m.e4 * m.e10 * m.e3 - m.e8 * m.e6 * m.e3 + m.e8 * m.e2 * m.e7
    - m.e0 * m.e10 * m.e7 - m.e4 * m.e2 * m.e11 + m.e0 * m.e6 * m.e11
  }

  function A8(m: Mat4): real {
    m.e8 * m.e13 * m.e7 - m.e12 * m.e9 * m.e7 + m.e12 * m.e5 * m.e11
    - m.e4 * m.e13 * m.e11 - m.e8 * m.e5 * m.e15 + m.e4 * m.e9 * m.e15
  }

  function A9(m: Mat4): real {
    m.e12 * m.e9 * m.e3 - m.e8 * m.e13 * m.e3 - m.e12 * m.e1 * m.e11
    + m.e0 * m.e13 * m.e11 + m.e8 * m.e1 * m.e15 - m.e0 * m.e9 * m.e15
  }

  function A10(m: Mat4): real {
    m.e4 * m.e13 * m.e3 - m.e12 * m.e5 * m.e3 + m.e12 * m.e1 * m.e7
    - m.e0 * m.e13 * m.e7 - m.e4 * m.e1 * m.e15 + m.e0 * m.e5 * m.e15
  }

  function A11(m: Mat4): real {
    m.e8 * m.e5 * m.e3 - m.e4 * m.e9 * m.e3 - m.e8 * m.e1 * m.e7
    + m.e0 * m.e9 * m.e7 + m.e4 * m.e1 * m.e11 - m.e0 * m.e5 * m.e11
  }

  function A12(m: Mat4): real {
    m.e12 * m.e9 * m.e6 - m.e8 * m.e13 * m.e6 - m.e12 * m.e5 * m.e10
    + m.e4 * m.e13 * m.e10 + m.e8 * m.e5 * m.e14 - m.e4 * m.e9 * m.e14
  }

  function A13(m: Mat4): real {
    m.e8 * m.e13 * m.e2 - m.e12 * m.e9 * m.e2 + m.e12 * m.e1 * m.e10
    - m.e0 * m.e13 * m.e10 - m.e8 * m.e1 * m.e14 + m.e0 * m.e9 * m.e14
  }

  function A14(m: Mat4): real {
    m.e12 * m.e5 * m.e2 - m.e4 * m.e13 * m.e2 - m.e12 * m.e1 * m.e6
    + m.e0 * m.e13 * m.e6 + m.e4 * m.e1 * m.e14 - m.e0 * m.e5 * m.e14
  }

  function A15(m: Mat4): real {
    m.e4 * m.e9 * m.e2 - m.e8 * m.e5 * m.e2 + m.e8 * m.e1 * m.e6
    - m.e0 * m.e9 * m.e6 - m.e4 * m.e1 * m.e10 + m.e0 * m.e5 * m.e10
  }

  // The sixteen cofactors, in element order.
  function Adjugate(m: Mat4): Mat4 {
    Mat4(A0(m), A1(m), A2(m), A3(m), A4(m), A5(m), A6(m), A7(m),
         A8(m), A9(m), A10(m), A11(m), A12(m), A13(m), A14(m), A15(m))
  }

  function Determinant(m: Mat4): real {
    m.e0 * A0(m) + m.e1 * A4(m) + m.e2 * A8(m) + m.e3 * A12(m)
  }

  function ScaleMatrix(k: real, m: Mat4): Mat4 {
    Mat4(m.e0 * k, m.e1 * k, m.e2 * k, m.e3 * k, m.e4 * k, m.e5 * k, m.e6 * k, m.e7 * k,
         m.e8 * k, m.e9 * k, m.e10 * k, m.e11 * k, m.e12 * k, m.e13 * k, m.e14 * k, m.e15 * k)
  }

  // A matrix whose determinant is too small is replaced by the identity.
  function Inverse(m: Mat4): Mat4 {
    if Abs(Determinant(m)) < MIN_DETERMINANT then IDENTITY
    else ScaleMatrix(1.0 / Determinant(m), Adjugate(m))
  }

  // ------------------------------------------------------ rows against cofactors

  // Four vectors in space always depend on one another, with their volumes for weights.
  lemma FourVectors(p: Vec3, q: Vec3, r: Vec3, s: Vec3)
    ensures p.x * Volume(q, r, s) - q.x * Volume(p, r, s) + r.x * Volume(p, q, s) - s.x * Volume(p, q, r) == 0.0
  {
    hide Det;
    CramerCoordinate(p, q, r, s);
    hide Dot, Cross;
    VolumeTurns(q, r, s);
    VolumeSwaps(q, r, s);
    VolumeTurns(r, s, p);
    VolumeTurns(p, r, s);
    VolumeSwaps(p, q, r);
  }

  lemma TurnedVolume(p: Vec3, q: Vec3, r: Vec3)
    ensures Volume(Turn(p), Turn(q), Turn(r)) == Volume(p, q, r)
  {
  }

  lemma Dependent(p: Vec3, q: Vec3, r: Vec3, s: Vec3)
    ensures p.x * Volume(q, r, s) - q.x * Volume(p, r, s) + r.x * Volume(p, q, s) - s.x * Volume(p, q, r) == 0.0
    ensures p.y * Volume(q, r, s) - q.y * Volume(p, r, s) + r.y * Volume(p, q, s) - s.y * Volume(p, q, r) == 0.0
    ensures p.z * Volume(q, r, s) - q.z * Volume(p, r, s) + r.z * Volume(p, q, s) - s.z * Volume(p, q, r) == 0.0
  {
    hide Volume;
    var p', q', r', s' := Turn(p), Turn(q), Turn(r), Turn(s);
    FourVectors(p, q, r, s);
    FourVectors(p', q', r', s');
    FourVectors(Turn(p'), Turn(q'), Turn(r'), Turn(s'));
    TurnedVolume(q, r, s);
    TurnedVolume(q', r', s');
    TurnedVolume(p, r, s);
    TurnedVolume(p', r', s');
    TurnedVolume(p, q, s);
    TurnedVolume(p', q', s');
    TurnedVolume(p, q, r);
    TurnedVolume(p', q', r');
  }

  // The cofactors of one row are volumes of the columns without it.
  lemma Cofactors0(m: Mat4)
    ensures var p, q := Vec3(m.e1, m.e2, m.e3), Vec3(m.e5, m.e6, m.e7);
            var r, s := Vec3(m.e9, m.e10, m.e11), Vec3(m.e13, m.e14, m.e15);
            && A0(m) == Volume(q, r, s) && A1(m) == -Volume(p, r, s)
            && A2(m) == Volume(p, q, s) && A3(m) == -Volume(p, q, r)
  {
  }

  lemma Cofactors1(m: Mat4)
    ensures var p, q := Vec3(m.e0, m.e2, m.e3), Vec3(m.e4, m.e6, m.e7);
            var r, s := Vec3(m.e8, m.e10, m.e11), Vec3(m.e12, m.e14, m.e15);
            && A4(m) == -Volume(q, r, s) && A5(m) == Volume(p, r, s)
            && A6(m) == -Volume(p, q, s) && A7(m) == Volume(p, q, r)
  {
  }

  lemma Cofactors2(m: Mat4)
    ensures var p, q := Vec3(m.e0, m.e1, m.e3), Vec3(m.e4, m.e5, m.e7);
            var r, s := Vec3(m.e8, m.e9, m.e11), Vec3(m.e12, m.e13, m.e15);
            && A8(m) == Volume(q, r, s) && A9(m) == -Volume(p, r, s)
            && A10(m) == Volume(p, q, s) && A11(m) == -Volume(p, q, r)
  {
  }

  lemma Cofactors3(m: Mat4)
    ensures var p, q := Vec3(m.e0, m.e1, m.e2), Vec3(m.e4, m.e5, m.e6);
            var r, s := Vec3(m.e8, m.e9, m.e10), Vec3(m.e12, m.e13, m.e14);
            && A12(m) == -Volume(q, r, s) && A13(m) == Volume(p, r, s)
            && A14(m) == -Volume(p, q, s) && A15(m) == Volume(p, q, r)
  {
  }

  lemma Own0(m: Mat4)
    ensures m.e0 * A0(m) + m.e4 * A1(m) + m.e8 * A2(m) + m.e12 * A3(m)
         - (m.e0 * A0(m) + m.e1 * A4(m) + m.e2 * A8(m) + m.e3 * A12(m)) == 0.0
  {
  }

  lemma Own1(m: Mat4)
    ensures m.e1 * A4(m) + m.e5 * A5(m) + m.e9 * A6(m) + m.e13 * A7(m)
         - (m.e0 * A0(m) + m.e1 * A4(m) + m.e2 * A8(m) + m.e3 * A12(m)) == 0.0
  {
  }

  lemma Own2(m: Mat4)
    ensures m.e2 * A8(m) + m.e6 * A9(m) + m.e10 * A10(m) + m.e14 * A11(m)
         - (m.e0 * A0(m) + m.e1 * A4(m) + m.e2 * A8(m) + m.e3 * A12(m)) == 0.0
  {
  }

  lemma Own3(m: Mat4)
    ensures m.e3 * A12(m) + m.e7 * A13(m) + m.e11 * A14(m) + m.e15 * A15(m)
         - (m.e0 * A0(m) + m.e1 * A4(m) + m.e2 * A8(m) + m.e3 * A12(m)) == 0.0
  {
  }

  lemma DeterminantIs(m: Mat4)
    ensures Determinant(m) == m.e0 * A0(m) + m.e1 * A4(m) + m.e2 * A8(m) + m.e3 * A12(m)
  {
    hide A0, A4, A8, A12;
  }

  lemma RowSums(a: real, b: real, c: real, d: real, x: real, y: real, z: real, w: real)
    ensures Row(a, b, c, d, x, y, z, w) == a * x + b * y + c * z + d * w
  {
  }

  lemma Signed(p: real, q: real, r: real, s: real, x: real, y: real, z: real, w: real)
    requires p * x - q * y + r * z - s * w == 0.0
    ensures Row(p, q, r, s, x, -y, z, -w) == 0.0 && Row(p, q, r, s, -x, y, -z, w) == 0.0
  {
  }

  // A row of the matrix meets its own cofactors in the determinant, and those of another
  // row in nothing.
  lemma Column0(m: Mat4)
    ensures Row(m.e0, m.e4, m.e8, m.e12, A0(m), A1(m), A2(m), A3(m)) == Determinant(m)
    ensures Row(m.e1, m.e5, m.e9, m.e13, A0(m), A1(m), A2(m), A3(m)) == 0.0
    ensures Row(m.e2, m.e6, m.e10, m.e14, A0(m), A1(m), A2(m), A3(m)) == 0.0
    ensures Row(m.e3, m.e7, m.e11, m.e15, A0(m), A1(m), A2(m), A3(m)) == 0.0
  {
    hide A0, A1, A2, A3, A4, A5, A6, A7, A8, A9, A10, A11, A12, A13, A14, A15, Volume, Row, Determinant;
    var p, q := Vec3(m.e1, m.e2, m.e3), Vec3(m.e5, m.e6, m.e7);
    var r, s := Vec3(m.e9, m.e10, m.e11), Vec3(m.e13, m.e14, m.e15);
    Cofactors0(m);
    Dependent(p, q, r, s);
    Signed(p.x, q.x, r.x, s.x, Volume(q, r, s), Volume(p, r, s), Volume(p, q, s), Volume(p, q, r));
    Signed(p.y, q.y, r.y, s.y, Volume(q, r, s), Volume(p, r, s), Volume(p, q, s), Volume(p, q, r));
    Signed(p.z, q.z, r.z, s.z, Volume(q, r, s), Volume(p, r, s), Volume(p, q, s), Volume(p, q, r));
    Own0(m);
    DeterminantIs(m);
    RowSums(m.e0, m.e4, m.e8, m.e12, A0(m), A1(m), A2(m), A3(m));
  }

  lemma Column1(m: Mat4)
    ensures Row(m.e0, m.e4, m.e8, m.e12, A4(m), A5(m), A6(m), A7(m)) == 0.0
    ensures Row(m.e1, m.e5, m.e9, m.e13, A4(m), A5(m), A6(m), A7(m)) == Determinant(m)
    ensures Row(m.e2, m.e6, m.e10, m.e14, A4(m), A5(m), A6(m), A7(m)) == 0.0
    ensures Row(m.e3, m.e7, m.e11, m.e15, A4(m), A5(m), A6(m), A7(m)) == 0.0
  {
    hide A0, A1, A2, A3, A4, A5, A6, A7, A8, A9, A10, A11, A12, A13, A14, A15, Volume, Row, Determinant;
    var p, q := Vec3(m.e0, m.e2, m.e3), Vec3(m.e4, m.e6, m.e7);
    var r, s := Vec3(m.e8, m.e10, m.e11), Vec3(m.e12, m.e14, m.e15);
    Cofactors1(m);
    Dependent(p, q, r, s);
    Signed(p.x, q.x, r.x, s.x, Volume(q, r, s), Volume(p, r, s), Volume(p, q, s), Volume(p, q, r));
    Signed(p.y, q.y, r.y, s.y, Volume(q, r, s), Volume(p, r, s), Volume(p, q, s), Volume(p, q, r));
    Signed(p.z, q.z, r.z, s.z, Volume(q, r, s), Volume(p, r, s), Volume(p, q, s), Volume(p, q, r));
    Own1(m);
    DeterminantIs(m);
    RowSums(m.e1, m.e5, m.e9, m.e13, A4(m), A5(m), A6(m), A7(m));
  }

  lemma Column2(m: Mat4)
    ensures Row(m.e0, m.e4, m.e8, m.e12, A8(m), A9(m), A10(m), A11(m)) == 0.0
    ensures Row(m.e1, m.e5, m.e9, m.e13, A8(m), A9(m), A10(m), A11(m)) == 0.0
    ensures Row(m.e2, m.e6, m.e10, m.e14, A8(m), A9(m), A10(m), A11(m)) == Determinant(m)
    ensures Row(m.e3, m.e7, m.e11, m.e15, A8(m), A9(m), A10(m), A11(m)) == 0.0
  {
    hide A0, A1, A2, A3, A4, A5, A6, A7, A8, A9, A10, A11, A12, A13, A14, A15, Volume, Row, Determinant;
    var p, q := Vec3(m.e0, m.e1, m.e3), Vec3(m.e4, m.e5, m.e7);
    var r, s := Vec3(m.e8, m.e9, m.e11), Vec3(m.e12, m.e13, m.e15);
    Cofactors2(m);
    Dependent(p, q, r, s);
    Signed(p.x, q.x, r.x, s.x, Volume(q, r, s), Volume(p, r, s), Volume(p, q, s), Volume(p, q, r));
    Signed(p.y, q.y, r.y, s.y, Volume(q, r, s), Volume(p, r, s), Volume(p, q, s), Volume(p, q, r));
    Signed(p.z, q.z, r.z, s.z, Volume(q, r, s), Volume(p, r, s), Volume(p, q, s), Volume(p, q, r));
    Own2(m);
    DeterminantIs(m);
    RowSums(m.e2, m.e6, m.e10, m.e14, A8(m), A9(m), A10(m), A11(m));
  }

  lemma Column3(m: Mat4)
    ensures Row(m.e0, m.e4, m.e8, m.e12, A12(m), A13(m), A14(m), A15(m)) == 0.0
    ensures Row(m.e1, m.e5, m.e9, m.e13, A12(m), A13(m), A14(m), A15(m)) == 0.0
    ensures Row(m.e2, m.e6, m.e10, m.e14, A12(m), A13(m), A14(m), A15(m)) == 0.0
    ensures Row(m.e3, m.e7, m.e11, m.e15, A12(m), A13(m), A14(m), A15(m)) == Determinant(m)
  {
    hide A0, A1, A2, A3, A4, A5, A6, A7, A8, A9, A10, A11, A12, A13, A14, A15, Volume, Row, Determinant;
    var p, q := Vec3(m.e0, m.e1, m.e2), Vec3(m.e4, m.e5, m.e6);
    var r, s := Vec3(m.e8, m.e9, m.e10), Vec3(m.e12, m.e13, m.e14);
    Cofactors3(m);
    Dependent(p, q, r, s);
    Signed(p.x, q.x, r.x, s.x, Volume(q, r, s), Volume(p, r, s), Volume(p, q, s), Volume(p, q, r));
    Signed(p.y, q.y, r.y, s.y, Volume(q, r, s), Volume(p, r, s), Volume(p, q, s), Volume(p, q, r));
    Signed(p.z, q.z, r.z, s.z, Volume(q, r, s), Volume(p, r, s), Volume(p, q, s), Volume(p, q, r));
    Own3(m);
    DeterminantIs(m);
    RowSums(m.e3, m.e7, m.e11, m.e15, A12(m), A13(m), A14(m), A15(m));
  }

  lemma Reciprocal(d: real)
    requires Abs(d) >= MIN_DETERMINANT
    ensures d * (1.0 / d) == 1.0
  {
  }

  lemma RowOfScaled(a: real, b: real, c: real, d: real, x: real, y: real, z: real, w: real, k: real,
                    x': real, y': real, z': real, w': real)
    requires x' == x * k && y' == y * k && z' == z * k && w' == w * k
    ensures Row(a, b, c, d, x', y', z', w') == Row(a, b, c, d, x, y, z, w) * k
  {
  }

  lemma ScaledColumn(m: Mat4, x: real, y: real, z: real, w: real, k: real, x': real, y': real, z': real, w': real)
    requires x' == x * k && y' == y * k && z' == z * k && w' == w * k
    ensures Row(m.e0, m.e4, m.e8, m.e12, x', y', z', w') == Row(m.e0, m.e4, m.e8, m.e12, x, y, z, w) * k
    ensures Row(m.e1, m.e5, m.e9, m.e13, x', y', z', w') == Row(m.e1, m.e5, m.e9, m.e13, x, y, z, w) * k
    ensures Row(m.e2, m.e6, m.e10, m.e14, x', y', z', w') == Row(m.e2, m.e6, m.e10, m.e14, x, y, z, w) * k
    ensures Row(m.e3, m.e7, m.e11, m.e15, x', y', z', w') == Row(m.e3, m.e7, m.e11, m.e15, x, y, z, w) * k
  {
    hide Row;
    RowOfScaled(m.e0, m.e4, m.e8, m.e12, x, y, z, w, k, x', y', z', w');
    RowOfScaled(m.e1, m.e5, m.e9, m.e13, x, y, z, w, k, x', y', z', w');
    RowOfScaled(m.e2, m.e6, m.e10, m.e14, x, y, z, w, k, x', y', z', w');
    RowOfScaled(m.e3, m.e7, m.e11, m.e15, x, y, z, w, k, x', y', z', w');
  }

  lemma InverseEntries(m: Mat4)
    requires Abs(Determinant(m)) >= MIN_DETERMINANT
    ensures var n, k := Inverse(m), 1.0 / Determinant(m);
            && n.e0 == A0(m) * k && n.e1 == A1(m) * k && n.e2 == A2(m) * k && n.e3 == A3(m) * k
            && n.e4 == A4(m) * k && n.e5 == A5(m) * k && n.e6 == A6(m) * k && n.e7 == A7(m) * k
            && n.e8 == A8(m) * k && n.e9 == A9(m) * k && n.e10 == A10(m) * k && n.e11 == A11(m) * k
            && n.e12 == A12(m) * k && n.e13 == A13(m) * k && n.e14 == A14(m) * k && n.e15 == A15(m) * k
  {
    hide A0, A1, A2, A3, A4, A5, A6, A7, A8, A9, A10, A11, A12, A13, A14, A15, Determinant, Abs;
  }

  // Above the threshold the inverse of any matrix is its inverse.
  lemma ProductIsIdentity(m: Mat4)
    requires Abs(Determinant(m)) >= 0.0000000001
    ensures Multiply(m, Inverse(m)) == IDENTITY
  {
    hide A0, A1, A2, A3, A4, A5, A6, A7, A8, A9, A10, A11, A12, A13, A14, A15, Determinant, Abs, Row, Inverse;
    var n, d := Inverse(m), Determinant(m);
    Reciprocal(d);
    InverseEntries(m);
    Column0(m);
    ScaledColumn(m, A0(m), A1(m), A2(m), A3(m), 1.0 / d, n.e0, n.e1, n.e2, n.e3);
    Column1(m);
    ScaledColumn(m, A4(m), A5(m), A6(m), A7(m), 1.0 / d, n.e4, n.e5, n.e6, n.e7);
    Column2(m);
    ScaledColumn(m, A8(m), A9(m), A10(m), A11(m), 1.0 / d, n.e8, n.e9, n.e10, n.e11);
    Column3(m);
    ScaledColumn(m, A12(m), A13(m), A14(m), A15(m), 1.0 / d, n.e12, n.e13, n.e14, n.e15);
  }

  lemma AffineCofactors(m: Mat4)
    requires Affine(m)
    ensures A3(m) == 0.0 && A7(m) == 0.0 && A11(m) == 0.0 && A15(m) == Determinant(m)
  {
    Own3(m);
    DeterminantIs(m);
    hide Determinant, A0, A1, A2, A4, A5, A6, A8, A9, A10, A12, A13, A14, A15;
  }

  lemma AffineInverse(m: Mat4)
    requires Affine(m) && Abs(Determinant(m)) >= MIN_DETERMINANT
    ensures Affine(Inverse(m))
  {
    hide Determinant, A0, A1, A2, A3, A4, A5, A6, A7, A8, A9, A10, A11, A12, A13, A14, A15, Abs;
    AffineCofactors(m);
    Reciprocal(Determinant(m));
  }

  lemma IdentityMoves(v: Vec3)
    ensures TransformVector(IDENTITY, v) == v && Determinant(IDENTITY) == 1.0
  {
  }

  // So the inverse of an affine matrix sends a point to the one the matrix sends back.
  lemma InverseMovesBack(m: Mat4, p: Vec3)
    requires Affine(m) && Abs(Determinant(m)) >= MIN_DETERMINANT
    ensures TransformVector(m, TransformVector(Inverse(m), p)) == p
  {
    hide Determinant, Inverse, Multiply, TransformVector, Affine, Abs;
    AffineInverse(m);
    ProductMovesTwice(m, Inverse(m), p);
    ProductIsIdentity(m);
    IdentityMoves(p);
  }
}
