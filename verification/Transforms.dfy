// The transform hierarchy: local matrices composed from position, rotation and scale,
// world matrices cached behind dirty flags and recomputed on demand from the parent's.
module Transforms {
  import opened Geometry
  import opened Matrices
  import opened Rotations
  import opened Inverses
  import opened Lists

  // ------------------------------------------------------- the forest as a value

  // What one transform stores, without its caches. The rank is bookkeeping: it grows
  // from parent to child, so that following parents ends.
  datatype Link = Link(position: Vec3, rotation: Quat, scale: Vec3, parent: Transform?, rank: nat) {
    function Local(): Mat4 {
      Compose(position, Rotation(rotation), scale)
    }
  }

  type Forest = map<Transform, Link>

  ghost predicate Rooted(f: Forest) {
    forall t :: t in f && f[t].parent != null ==> f[t].parent in f && f[f[t].parent].rank < f[t].rank
  }

  // The plain recursive product of local matrices from the root down: what every cached
  // world matrix is meant to equal.
  ghost function World(f: Forest, t: Transform): Mat4
    requires Rooted(f) && t in f
    decreases f[t].rank
  {
    if f[t].parent == null then f[t].Local()
    else Multiply(World(f, f[t].parent), f[t].Local())
  }

  lemma WorldIs(f: Forest, t: Transform)
    requires Rooted(f) && t in f
    ensures World(f, t) == if f[t].parent == null then f[t].Local() else Multiply(World(f, f[t].parent), f[t].Local())
  {
  }

  // t is x or one of its ancestors.
  ghost predicate Below(f: Forest, x: Transform, t: Transform)
    requires Rooted(f) && x in f
    decreases f[x].rank
  {
    x == t || (f[x].parent != null && Below(f, f[x].parent, t))
  }

  lemma {:induction false} BelowTransitive(f: Forest, x: Transform, y: Transform, z: Transform)
    requires Rooted(f) && x in f && y in f && Below(f, x, y) && Below(f, y, z)
    ensures Below(f, x, z)
    decreases f[x].rank
  {
    if x != y {
      BelowTransitive(f, f[x].parent, y, z);
    }
  }

  lemma {:induction false} BelowRank(f: Forest, x: Transform, t: Transform)
    requires Rooted(f) && x in f && t in f && Below(f, x, t)
    ensures f[t].rank <= f[x].rank && (f[t].rank == f[x].rank ==> x == t)
    decreases f[x].rank
  {
    if x != t {
      BelowRank(f, f[x].parent, t);
    }
  }

  // The world matrix reads nothing but the stored local matrices and parents on the way up.
  lemma {:induction false} WorldReadsAncestors(f: Forest, g: Forest, x: Transform)
    requires Rooted(f) && Rooted(g) && x in f
    requires forall y :: y in f && Below(f, x, y) ==>
               y in g && g[y].Local() == f[y].Local() && g[y].parent == f[y].parent
    ensures x in g && World(g, x) == World(f, x)
    decreases f[x].rank
  {
    if f[x].parent != null {
      forall y | y in f && Below(f, f[x].parent, y)
        ensures y in g && g[y].Local() == f[y].Local() && g[y].parent == f[y].parent
      {
        assert Below(f, x, y);
      }
      WorldReadsAncestors(f, g, f[x].parent);
    }
  }

  lemma {:induction false} BelowReadsAncestors(f: Forest, g: Forest, x: Transform, t: Transform)
    requires Rooted(f) && Rooted(g) && x in f && x in g
    requires forall y :: y in f <==> y in g
    requires forall y :: y in f ==> g[y].parent == f[y].parent
    ensures Below(f, x, t) <==> Below(g, x, t)
    decreases f[x].rank
  {
    if f[x].parent != null {
      BelowReadsAncestors(f, g, f[x].parent, t);
    }
  }

  // Applying a world matrix to a point is applying the local matrices one by one, innermost first.
  ghost function Carry(f: Forest, t: Transform, p: Vec3): Vec3
    requires Rooted(f) && t in f
    decreases f[t].rank
  {
    var q := TransformVector(f[t].Local(), p);
    if f[t].parent == null then q else Carry(f, f[t].parent, q)
  }

  lemma {:induction false} WorldCarries(f: Forest, t: Transform, p: Vec3)
    requires Rooted(f) && t in f
    ensures TransformVector(World(f, t), p) == Carry(f, t, p)
    ensures Affine(World(f, t))
    decreases f[t].rank
  {
    var local := f[t].Local();
    assert Affine(local);
    if f[t].parent != null {
      hide TransformVector, Multiply, Affine;
      var w := World(f, f[t].parent);
      WorldCarries(f, f[t].parent, TransformVector(local, p));
      ProductMovesTwice(w, local, p);
      AffineProduct(w, local);
    }
  }

  // What a local matrix is for: stretch along the axes, turn by the quaternion, move.
  function Placed(l: Link, v: Vec3): Vec3 {
    Add(l.position, Turned(l.rotation, Stretched(l.scale, v)))
  }

  lemma LocalPlaces(l: Link)
    ensures Affine(l.Local()) && forall v :: TransformVector(l.Local(), v) == Placed(l, v)
  {
    hide TransformVector, Turned, Stretched, Rotation, Add;
    forall v
      ensures TransformVector(l.Local(), v) == Placed(l, v)
    {
      ComposeMoves(l.position, l.rotation, l.scale, v);
    }
  }

  // What reset stores and a node starts with leaves every point where it is.
  lemma IdentityPlaces(l: Link, v: Vec3)
    requires l.position == ZERO3 && l.rotation == NO_ROTATION && l.scale == ONE3
    ensures Placed(l, v) == v
  {
  }

  // Where v ends up, transform by transform, without any matrix.
  ghost function Reached(f: Forest, t: Transform, v: Vec3): Vec3
    requires Rooted(f) && t in f
    decreases f[t].rank
  {
    var w := Placed(f[t], v);
    if f[t].parent == null then w else Reached(f, f[t].parent, w)
  }

  lemma {:induction false} CarryReaches(f: Forest, t: Transform, v: Vec3)
    requires Rooted(f) && t in f
    ensures Carry(f, t, v) == Reached(f, t, v)
    decreases f[t].rank
  {
    hide TransformVector, Placed, Link.Local;
    LocalPlaces(f[t]);
    if f[t].parent != null {
      CarryReaches(f, f[t].parent, Placed(f[t], v));
    }
  }

  // A world matrix stretches, turns and moves as the stored values on the way up say.
  lemma WorldReaches(f: Forest, t: Transform)
    requires Rooted(f) && t in f
    ensures Affine(World(f, t)) && forall v :: TransformVector(World(f, t), v) == Reached(f, t, v)
  {
    hide TransformVector, World, Carry, Reached;
    WorldCarries(f, t, ZERO3);
    forall v
      ensures TransformVector(World(f, t), v) == Reached(f, t, v)
    {
      WorldCarries(f, t, v);
      CarryReaches(f, t, v);
    }
  }

  // t and everything below it.
  ghost function Subtree(f: Forest, t: Transform): set<Transform>
    requires Rooted(f)
  {
    set x | x in f && Below(f, x, t)
  }

  ghost function Subtrees(f: Forest, ts: seq<Transform>): set<Transform>
    requires Rooted(f)
  {
    if ts == [] then {} else Subtrees(f, ts[..|ts| - 1]) + Subtree(f, ts[|ts| - 1])
  }

  lemma OneMoreSubtree(f: Forest, ts: seq<Transform>, i: nat)
    requires Rooted(f) && i < |ts|
    ensures Subtrees(f, ts[..i + 1]) == Subtrees(f, ts[..i]) + Subtree(f, ts[i])
  {
    hide Subtree;
    assert ts[..i + 1][..i] == ts[..i];
  }

  lemma {:induction false} InSubtrees(f: Forest, ts: seq<Transform>, x: Transform)
    requires Rooted(f)
    ensures x in Subtrees(f, ts) <==> exists j :: 0 <= j < |ts| && x in Subtree(f, ts[j])
  {
    if ts != [] {
      var n := |ts| - 1;
      InSubtrees(f, ts[..n], x);
      if x in Subtrees(f, ts[..n]) {
        var j :| 0 <= j < n && x in Subtree(f, ts[..n][j]);
        assert ts[..n][j] == ts[j];
      }
      if j :| 0 <= j < |ts| && x in Subtree(f, ts[j]) {
        if j < n { assert ts[..n][j] == ts[j]; }
      }
    }
  }

  lemma {:induction false} SubtreesInside(f: Forest, ts: seq<Transform>, x: Transform)
    requires Rooted(f) && x in Subtrees(f, ts)
    ensures x in f
  {
    if x !in Subtree(f, ts[|ts| - 1]) {
      SubtreesInside(f, ts[..|ts| - 1], x);
    }
  }

  // ---------------------------------------------------------- changes to the forest

  // Storing new local values at t.
  function Stored(f: Forest, t: Transform, p: Vec3, r: Quat, s: Vec3): Forest
    requires t in f
  {
    f[t := f[t].(position := p, rotation := r, scale := s)]
  }

  lemma StoredIs(f: Forest, t: Transform)
    requires t in f
    ensures forall p: Vec3, r: Quat, c: Vec3, x: Transform :: x in f ==>
              x in Stored(f, t, p, r, c) && Stored(f, t, p, r, c)[x].parent == f[x].parent
              && (x != t ==> Stored(f, t, p, r, c)[x] == f[x])
  {
  }

  lemma StoredKeepsOthers(f: Forest, t: Transform, p: Vec3, r: Quat, s: Vec3)
    requires Rooted(f) && t in f
    ensures Rooted(Stored(f, t, p, r, s))
    ensures forall x :: x in f ==> (Below(Stored(f, t, p, r, s), x, t) <==> Below(f, x, t))
    ensures forall x :: x in f && !Below(f, x, t) ==> World(Stored(f, t, p, r, s), x) == World(f, x)
  {
    hide Below, World, Link.Local;
    var g := Stored(f, t, p, r, s);
    forall x | x in f
      ensures Below(g, x, t) <==> Below(f, x, t)
    {
      BelowReadsAncestors(f, g, x, t);
    }
    forall x | x in f && !Below(f, x, t)
      ensures World(g, x) == World(f, x)
    {
      WorldReadsAncestors(f, g, x);
    }
  }

  ghost function Lifted(f: Forest, x: Transform, t: Transform, p: Transform?): nat
    requires Rooted(f) && x in f && (p == null || p in f)
  {
    if p != null && Below(f, x, t) then f[x].rank + f[p].rank + 1 else f[x].rank
  }

  // Moving t under p; the ranks of its subtree are lifted above p's.
  ghost function Moved(f: Forest, t: Transform, p: Transform?): Forest
    requires Rooted(f) && t in f && (p == null || p in f)
  {
    map x | x in f :: f[x].(parent := if x == t then p else f[x].parent, rank := Lifted(f, x, t, p))
  }

  lemma MovedIsRooted(f: Forest, t: Transform, p: Transform?)
    requires Rooted(f) && t in f && (p == null || (p in f && !Below(f, p, t)))
    ensures Rooted(Moved(f, t, p))
  {
    var g := Moved(f, t, p);
    forall x | x in g && g[x].parent != null
      ensures g[x].parent in g && g[g[x].parent].rank < g[x].rank
    {
      if x != t {
        assert f[x].parent in f;
      }
    }
  }

  lemma {:induction false} MovedBelow(f: Forest, t: Transform, p: Transform?, x: Transform)
    requires Rooted(f) && t in f && (p == null || (p in f && !Below(f, p, t))) && x in f
    requires Rooted(Moved(f, t, p))
    ensures Below(Moved(f, t, p), x, t) <==> Below(f, x, t)
    decreases f[x].rank
  {
    if x != t && f[x].parent != null {
      MovedBelow(f, t, p, f[x].parent);
    }
  }

  lemma {:induction false} MovedKeepsOthers(f: Forest, t: Transform, p: Transform?, x: Transform)
    requires Rooted(f) && t in f && (p == null || (p in f && !Below(f, p, t))) && x in f && !Below(f, x, t)
    requires Rooted(Moved(f, t, p))
    ensures World(Moved(f, t, p), x) == World(f, x)
    decreases f[x].rank
  {
    if f[x].parent != null {
      MovedKeepsOthers(f, t, p, f[x].parent);
    }
  }

  // Moving does to the subtree what it should: its world matrices hang off the new parent.
  lemma MovedWorld(f: Forest, t: Transform, p: Transform?)
    requires Rooted(f) && t in f && (p == null || (p in f && !Below(f, p, t)))
    ensures Rooted(Moved(f, t, p))
    ensures World(Moved(f, t, p), t) == if p == null then f[t].Local() else Multiply(World(f, p), f[t].Local())
  {
    MovedIsRooted(f, t, p);
    if p != null {
      MovedKeepsOthers(f, t, p, p);
    }
  }

  // The local position that setWorldPosition asks the position setter to store.
  ghost function Target(f: Forest, t: Transform, v: Vec3): Vec3
    requires Rooted(f) && t in f
  {
    if f[t].parent == null then v else TransformVector(Inverse(World(f, f[t].parent)), v)
  }

  ghost function PutInWorld(f: Forest, t: Transform, v: Vec3): Forest
    requires Rooted(f) && t in f
  {
    var target := Target(f, t, v);
    if NearVec(f[t].position, target) then f else Stored(f, t, target, f[t].rotation, f[t].scale)
  }

  lemma PutInWorldIs(f: Forest, t: Transform, v: Vec3, target: Vec3, parent: Transform?)
    requires Rooted(f) && t in f && parent == f[t].parent
    requires target == if parent == null then v else TransformVector(Inverse(World(f, parent)), v)
    ensures PutInWorld(f, t, v)
         == if NearVec(f[t].position, target) then f else Stored(f, t, target, f[t].rotation, f[t].scale)
  {
  }

  // Where the origin of t is in the world.
  ghost function OriginOf(f: Forest, t: Transform): Vec3
    requires Rooted(f) && t in f
  {
    TransformVector(World(f, t), ZERO3)
  }

  // The parent's world matrix, as setWorldPosition finds it.
  ghost function Above(f: Forest, t: Transform): Mat4
    requires Rooted(f) && t in f
  {
    if f[t].parent == null then IDENTITY else World(f, f[t].parent)
  }

  lemma ComposedOrigin(p: Vec3, r: Mat4, s: Vec3)
    ensures TransformVector(Compose(p, r, s), ZERO3) == p && Affine(Compose(p, r, s))
  {
  }

  lemma OriginUnderParent(f: Forest, t: Transform)
    requires Rooted(f) && t in f
    ensures OriginOf(f, t) == TransformVector(Above(f, t), f[t].position)
  {
    hide TransformVector, Multiply, Compose;
    ComposedOrigin(f[t].position, Rotation(f[t].rotation), f[t].scale);
    if f[t].parent == null {
      IdentityMoves(f[t].position);
    } else {
      WorldCarries(f, f[t].parent, ZERO3);
      ProductMovesTwice(World(f, f[t].parent), f[t].Local(), ZERO3);
    }
  }

  // The parent sends the target to v if its world matrix can be inverted. Below the
  // determinant threshold inverse() gives the identity, and v itself is sent on.
  lemma TargetLands(f: Forest, t: Transform, v: Vec3)
    requires Rooted(f) && t in f
    ensures TransformVector(Above(f, t), Target(f, t, v))
         == if Abs(Determinant(Above(f, t))) >= MIN_DETERMINANT then v else TransformVector(Above(f, t), v)
  {
    hide Determinant, TransformVector, World;
    IdentityMoves(v);
    if f[t].parent != null {
      WorldCarries(f, f[t].parent, v);
      if Abs(Determinant(Above(f, t))) >= MIN_DETERMINANT {
        InverseMovesBack(Above(f, t), v);
      }
    }
  }

  lemma PutInWorldMoves(f: Forest, t: Transform, v: Vec3)
    requires Rooted(f) && t in f && !NearVec(f[t].position, Target(f, t, v))
    ensures var g := PutInWorld(f, t, v);
            && Rooted(g) && t in g
            && OriginOf(g, t) == TransformVector(Above(f, t), Target(f, t, v))
            && (OriginOf(g, t) == v <==>
                  || Abs(Determinant(Above(f, t))) >= MIN_DETERMINANT
                  || TransformVector(Above(f, t), v) == v)
  {
    hide Determinant, TransformVector, World, NearVec, Target;
    var target := Target(f, t, v);
    var g := Stored(f, t, target, f[t].rotation, f[t].scale);
    StoredKeepsOthers(f, t, target, f[t].rotation, f[t].scale);
    OriginUnderParent(g, t);
    if f[t].parent != null && Below(f, f[t].parent, t) {
      BelowRank(f, f[t].parent, t);
    }
    assert Above(g, t) == Above(f, t);
    TargetLands(f, t, v);
  }

  // How far a row can move apart what differs by less than EPSILON on each axis.
  function RowSpread(a: real, b: real, c: real): real {
    Abs(a) * EPSILON + Abs(b) * EPSILON + Abs(c) * EPSILON
  }

  function Spread(m: Mat4): Vec3 {
    Vec3(RowSpread(m.e0, m.e4, m.e8), RowSpread(m.e1, m.e5, m.e9), RowSpread(m.e2, m.e6, m.e10))
  }

  predicate Within(a: Vec3, b: Vec3, d: Vec3) {
    Abs(a.x - b.x) <= d.x && Abs(a.y - b.y) <= d.y && Abs(a.z - b.z) <= d.z
  }

  lemma ScaledGap(k: real, d: real)
    requires Abs(d) < EPSILON
    ensures Abs(k * d) <= Abs(k) * EPSILON
  {
    if d >= 0.0 {
      assert Abs(k) * (EPSILON - d) >= 0.0;
    } else {
      assert Abs(k) * (EPSILON + d) >= 0.0;
    }
  }

  lemma RowGap(a: real, b: real, c: real, e: real, p: Vec3, q: Vec3)
    ensures Row(a, b, c, e, p.x, p.y, p.z, 1.0) - Row(a, b, c, e, q.x, q.y, q.z, 1.0)
         == a * (p.x - q.x) + b * (p.y - q.y) + c * (p.z - q.z)
  {
  }

  lemma NearParts(p: Vec3, q: Vec3)
    requires NearVec(p, q)
    ensures Abs(p.x - q.x) < EPSILON && Abs(p.y - q.y) < EPSILON && Abs(p.z - q.z) < EPSILON
  {
  }

  lemma ThreeTerms(x: real, y: real, z: real)
    ensures Abs(x + y + z) <= Abs(x) + Abs(y) + Abs(z)
  {
  }

  lemma RowKeepsNear(a: real, b: real, c: real, e: real, p: Vec3, q: Vec3)
    requires NearVec(p, q)
    ensures Abs(Row(a, b, c, e, p.x, p.y, p.z, 1.0) - Row(a, b, c, e, q.x, q.y, q.z, 1.0))
         <= RowSpread(a, b, c)
  {
    hide Row, Abs, NearVec;
    var x, y, z := p.x - q.x, p.y - q.y, p.z - q.z;
    RowGap(a, b, c, e, p, q);
    NearParts(p, q);
    ScaledGap(a, x);
    ScaledGap(b, y);
    ScaledGap(c, z);
    ThreeTerms(a * x, b * y, c * z);
    assert Row(a, b, c, e, p.x, p.y, p.z, 1.0) - Row(a, b, c, e, q.x, q.y, q.z, 1.0) == a * x + b * y + c * z;
  }

  // A move too small to be stored leaves everything as it was. The origin is then as near
  // to where it would have gone as the parent keeps near things near.
  lemma PutInWorldStays(f: Forest, t: Transform, v: Vec3)
    requires Rooted(f) && t in f && NearVec(f[t].position, Target(f, t, v))
    ensures PutInWorld(f, t, v) == f
    ensures var m := Above(f, t);
            Within(OriginOf(f, t), if Abs(Determinant(m)) >= MIN_DETERMINANT then v else TransformVector(m, v),
                   Spread(m))
  {
    hide Determinant, World, Row, NearVec, Target, Above, OriginOf;
    var m, p, q := Above(f, t), f[t].position, Target(f, t, v);
    OriginUnderParent(f, t);
    TargetLands(f, t, v);
    RowKeepsNear(m.e0, m.e4, m.e8, m.e12, p, q);
    RowKeepsNear(m.e1, m.e5, m.e9, m.e13, p, q);
    RowKeepsNear(m.e2, m.e6, m.e10, m.e14, p, q);
  }

  // Where setWorldPosition brings the origin of t. A move that is stored brings it to v
  // exactly if the parent's world matrix is above the threshold of inverse(), or leaves v
  // where it is; a move too small to be stored leaves it within reach of that.
  lemma PutInWorldArrives(f: Forest, t: Transform, v: Vec3)
    requires Rooted(f) && t in f
    ensures var m, g := Above(f, t), PutInWorld(f, t, v);
            && Rooted(g) && t in g
            && (if NearVec(f[t].position, Target(f, t, v)) then
                  && g == f
                  && Within(OriginOf(g, t), if Abs(Determinant(m)) >= MIN_DETERMINANT then v else TransformVector(m, v),
                            Spread(m))
                else
                  && OriginOf(g, t) == (if Abs(Determinant(m)) >= MIN_DETERMINANT then v else TransformVector(m, v))
                  && (OriginOf(g, t) == v <==> Abs(Determinant(m)) >= MIN_DETERMINANT || TransformVector(m, v) == v))
  {
    hide *;
    if NearVec(f[t].position, Target(f, t, v)) {
      PutInWorldStays(f, t, v);
    } else {
      PutInWorldMoves(f, t, v);
      TargetLands(f, t, v);
    }
  }

  function Even(k: real): Mat4 {
    Mat4(k, 0.0, 0.0, 0.0, 0.0, k, 0.0, 0.0, 0.0, 0.0, k, 0.0, 0.0, 0.0, 0.0, 1.0)
  }

  lemma NoRotation()
    ensures Rotation(NO_ROTATION) == IDENTITY
  {
  }

  lemma EvenlyScaled(k: real)
    ensures Compose(ZERO3, IDENTITY, Vec3(k, k, k)) == Even(k)
  {
  }

  const SMALL := Vec3(1.0 / 3000.0, 1.0 / 3000.0, 1.0 / 3000.0)

  lemma SmallIsEven()
    ensures Compose(ZERO3, Rotation(NO_ROTATION), SMALL) == Even(1.0 / 3000.0)
  {
    hide Compose, Rotation;
    NoRotation();
    EvenlyScaled(1.0 / 3000.0);
  }

  lemma EvenDeterminant(k: real)
    ensures Determinant(Even(k)) == k * k * k
  {
  }

  lemma SmallMatrix()
    ensures var m := Even(1.0 / 3000.0);
            && 0.0 < Determinant(m) && Abs(Determinant(m)) < MIN_DETERMINANT
            && TransformVector(m, Vec3(1.0, 0.0, 0.0)) == Vec3(1.0 / 3000.0, 0.0, 0.0)
  {
    EvenDeterminant(1.0 / 3000.0);
  }

  lemma FarApart(v: Vec3)
    requires v.x == 1.0
    ensures !NearVec(ZERO3, v)
  {
  }

  // A parent scaled down to a 3000th can be inverted, but not by inverse().
  lemma SmallParentMisses(f: Forest, t: Transform, p: Transform)
    requires p != t
    requires f == map[p := Link(ZERO3, NO_ROTATION, SMALL, null, 0), t := Link(ZERO3, NO_ROTATION, ONE3, p, 1)]
    ensures Rooted(f) && 0.0 < Determinant(World(f, p))
    ensures var v := Vec3(1.0, 0.0, 0.0); var g := PutInWorld(f, t, v);
            Rooted(g) && t in g && OriginOf(g, t) == Vec3(1.0 / 3000.0, 0.0, 0.0) != v
  {
    hide Determinant, TransformVector, NearVec, Compose, Rotation;
    var v := Vec3(1.0, 0.0, 0.0);
    SmallMatrix();
    SmallIsEven();
    assert f[p].Local() == World(f, p) == Even(1.0 / 3000.0);
    IdentityMoves(v);
    assert Target(f, t, v) == v;
    FarApart(v);
    PutInWorldMoves(f, t, v);
  }

  // ------------------------------------------------------- what the objects hold

  ghost function Snapshot(s: set<Transform>): Forest
    reads s
  {
    map t | t in s :: t.LinkOf()
  }

  lemma SnapshotAt(s: set<Transform>, t: Transform)
    requires t in s
    ensures t in Snapshot(s) && Snapshot(s)[t] == t.LinkOf() && t.LinkOf().parent == t.parent
  {
  }

  lemma SnapshotKeys(s: set<Transform>)
    ensures Snapshot(s).Keys == s
  {
  }

  // Parents and children name each other, each child once, and ranks grow downward.
  ghost predicate Linked(s: set<Transform>)
    reads s
  {
    && (forall t :: t in s && t.parent != null ==>
          t.parent in s && t.parent.rank < t.rank && t in t.parent.children)
    && (forall t, c :: t in s && c in t.children ==> c in s && c.parent == t)
    && (forall t :: t in s ==> Distinct(t.children))
  }

  lemma LinkedIsRooted(s: set<Transform>)
    requires Linked(s)
    ensures Rooted(Snapshot(s))
  {
  }

  // A cache that is not marked dirty holds what a fresh computation would give.
  ghost predicate Coherent(s: set<Transform>)
    requires Linked(s)
    reads s
  {
    forall t :: t in s ==>
      && (!t.matrixDirty ==> t.matrixCache == t.LinkOf().Local())
      && (!t.worldDirty ==> t.worldCache == World(Snapshot(s), t))
  }

  // Flags are set downwards: below a stale world matrix all are stale, and a stale local
  // matrix makes its world matrix stale.
  ghost predicate Flagged(s: set<Transform>)
    reads s
  {
    forall t :: t in s ==>
      && (t.matrixDirty ==> t.worldDirty)
      && (t.parent != null && t.parent in s && t.parent.worldDirty ==> t.worldDirty)
  }

  ghost function DirtyIn(s: set<Transform>): set<Transform>
    reads s
  {
    set x | x in s && x.worldDirty
  }

  ghost function TopRank(s: set<Transform>): (top: nat)
    reads s
    ensures forall x :: x in s ==> x.rank <= top
  {
    if s == {} then 0
    else
      var x :| x in s;
      var rest := TopRank(s - {x});
      if x.rank > rest then x.rank else rest
  }

  lemma ChildIn(s: set<Transform>, t: Transform, i: nat)
    requires Linked(s) && t in s && i < |t.children|
    ensures t.children[i] in s && t.children[i].parent == t && t.rank < t.children[i].rank
  {
  }

  lemma ParentIn(s: set<Transform>, t: Transform)
    requires Linked(s) && t in s && t.parent != null
    ensures t.parent in s && t.parent.rank < t.rank
  {
  }

  lemma {:induction false} BelowSomeChild(s: set<Transform>, t: Transform, x: Transform)
    requires Linked(s) && t in s && x in s
    ensures Rooted(Snapshot(s))
    ensures Below(Snapshot(s), x, t) <==>
            x == t || exists j :: 0 <= j < |t.children| && Below(Snapshot(s), x, t.children[j])
    decreases x.rank
  {
    var f := Snapshot(s);
    if x.parent != null {
      BelowSomeChild(s, t, x.parent);
      if x.parent == t {
        var j :| 0 <= j < |t.children| && t.children[j] == x;
        assert Below(f, x, t.children[j]);
      }
    }
    if j :| 0 <= j < |t.children| && Below(f, x, t.children[j]) {
      assert f[t.children[j]].parent == t && Below(f, t.children[j], t);
      BelowTransitive(f, x, t.children[j], t);
    }
  }

  lemma SubtreeMember(s: set<Transform>, t: Transform, x: Transform)
    requires Linked(s) && t in s && Rooted(Snapshot(s))
    ensures x in Subtree(Snapshot(s), t) <==> x == t || x in Subtrees(Snapshot(s), t.children)
  {
    hide Linked, Below, Subtrees;
    var f := Snapshot(s);
    InSubtrees(f, t.children, x);
    if x in s {
      BelowSomeChild(s, t, x);
      if x in Subtree(f, t) && x != t {
        var j :| 0 <= j < |t.children| && Below(f, x, t.children[j]);
        assert x in Subtree(f, t.children[j]);
      }
      if x in Subtrees(f, t.children) {
        var j :| 0 <= j < |t.children| && x in Subtree(f, t.children[j]);
        assert Below(f, x, t.children[j]);
      }
    } else if x in Subtrees(f, t.children) {
      SubtreesInside(f, t.children, x);
    }
  }

  lemma SubtreeOfChildren(s: set<Transform>, t: Transform)
    requires Linked(s) && t in s
    ensures Rooted(Snapshot(s))
    ensures Subtree(Snapshot(s), t) == {t} + Subtrees(Snapshot(s), t.children)
  {
    LinkedIsRooted(s);
    var a, b := Subtree(Snapshot(s), t), {t} + Subtrees(Snapshot(s), t.children);
    forall x | x in a
      ensures x in b
    {
      SubtreeMember(s, t, x);
    }
    forall x | x in b
      ensures x in a
    {
      SubtreeMember(s, t, x);
    }
    assert a == b;
  }

  lemma CleanWorld(s: set<Transform>, t: Transform)
    requires Linked(s) && Coherent(s) && t in s && !t.worldDirty
    ensures Rooted(Snapshot(s)) && t in Snapshot(s) && t.worldCache == World(Snapshot(s), t)
  {
  }

  lemma {:induction false} FlaggedBelow(s: set<Transform>, t: Transform, x: Transform)
    requires Linked(s) && Flagged(s) && t in s && x in s && t.worldDirty
    requires Rooted(Snapshot(s)) && Below(Snapshot(s), x, t)
    ensures x.worldDirty
    decreases x.rank
  {
    if x != t {
      ParentIn(s, x);
      FlaggedBelow(s, t, x.parent);
    }
  }

  // ------------------------------------------------ what a change does to that state

  // Touching only caches and flags leaves links and stored values alone.
  twostate lemma LinksKept(s: set<Transform>)
    requires old(Linked(s))
    requires forall x :: x in s ==> x.LinkOf() == old(x.LinkOf()) && x.children == old(x.children)
    ensures Linked(s) && Snapshot(s) == old(Snapshot(s))
  {
    assert forall x :: x in s ==> x.parent == old(x.LinkOf()).parent && x.rank == old(x.LinkOf()).rank;
  }

  twostate lemma FlaggedKept(s: set<Transform>)
    requires old(Flagged(s))
    requires forall x :: x in s ==>
               (x.matrixDirty ==> old(x.matrixDirty)) && x.worldDirty == old(x.worldDirty) && x.parent == old(x.parent)
    ensures Flagged(s)
  {
  }

  twostate lemma FlaggedClean(s: set<Transform>, new t: Transform)
    requires old(Flagged(s)) && t in s && !t.matrixDirty
    requires t.parent != null ==> t.parent in s && !t.parent.worldDirty
    requires forall x :: x in s ==>
               x.matrixDirty == old(x.matrixDirty) && x.parent == old(x.parent)
                 && (x != t ==> x.worldDirty == old(x.worldDirty))
    requires !t.worldDirty
    ensures Flagged(s)
  {
  }

  twostate lemma FlaggedAfterMark(s: set<Transform>, new t: Transform)
    requires old(Flagged(s)) && Linked(s) && t in s
    requires forall x :: x in s && x != t ==> (x.matrixDirty ==> old(x.matrixDirty)) && x.parent == old(x.parent)
    requires DirtyIn(s) == old(DirtyIn(s)) + Subtree(Snapshot(s), t)
    ensures Flagged(s)
  {
    forall x | x in s
      ensures x.matrixDirty ==> x.worldDirty
      ensures x.parent != null && x.parent in s && x.parent.worldDirty ==> x.worldDirty
    {
      assert x in Subtree(Snapshot(s), t) || x in old(DirtyIn(s)) ==> x in DirtyIn(s);
      if x.parent != null && x.parent in s && x.parent.worldDirty {
        assert x.parent in DirtyIn(s);
      }
    }
  }

  // After storing new local values at t, links are as before and the forest has them.
  twostate lemma StoredSnapshot(s: set<Transform>, new t: Transform)
    requires t in s && t.parent == old(t.parent) && t.rank == old(t.rank)
    requires forall x :: x in s && x != t ==> x.LinkOf() == old(x.LinkOf())
    ensures Snapshot(s) == Stored(old(Snapshot(s)), t, t.position, t.rotation, t.scale)
  {
  }

  twostate lemma StoredLinks(s: set<Transform>, new t: Transform)
    requires old(Linked(s)) && t in s
    requires forall x :: x in s ==>
               && x.parent == old(x.parent) && x.rank == old(x.rank) && x.children == old(x.children)
               && (x != t ==> x.LinkOf() == old(x.LinkOf()))
    ensures Linked(s)
    ensures Snapshot(s) == Stored(old(Snapshot(s)), t, t.position, t.rotation, t.scale)
  {
    StoredSnapshot(s, t);
    hide Snapshot, Stored;
  }

  // Marking the stored transform and everything below it keeps the caches honest.
  twostate lemma CoherentAfterStore(s: set<Transform>, new t: Transform)
    requires old(Linked(s)) && old(Coherent(s)) && Linked(s) && t in s
    requires Snapshot(s) == Stored(old(Snapshot(s)), t, t.position, t.rotation, t.scale)
    requires forall x :: x in s ==>
               && x.matrixCache == old(x.matrixCache) && x.worldCache == old(x.worldCache)
               && (x != t ==> x.matrixDirty == old(x.matrixDirty))
    requires t.matrixDirty && DirtyIn(s) == old(DirtyIn(s)) + Subtree(Snapshot(s), t)
    ensures Coherent(s)
  {
    var f, g := old(Snapshot(s)), Snapshot(s);
    assert Rooted(f);
    StoredKeepsOthers(f, t, t.position, t.rotation, t.scale);
    forall x | x in s
      ensures !x.matrixDirty ==> x.matrixCache == x.LinkOf().Local()
      ensures !x.worldDirty ==> x.worldCache == World(g, x)
    {
      if x != t {
        assert g[x] == f[x] && x.LinkOf() == g[x] && old(x.LinkOf()) == f[x];
      }
      if !x.worldDirty {
        assert x !in DirtyIn(s);
        assert x !in Subtree(g, t) && x !in old(DirtyIn(s));
      }
    }
  }

  twostate lemma RootedOnce(s: set<Transform>)
    requires old(Linked(s))
    ensures Rooted(old(Snapshot(s)))
  {
  }

  // What is not marked stands where it stood.
  twostate lemma WorldAfterTurn(s: set<Transform>, new t: Transform, new x: Transform)
    requires Linked(s) && Flagged(s) && t in s && x in s && !x.worldDirty
    requires Rooted(old(Snapshot(s))) && Rooted(Snapshot(s))
    requires Snapshot(s) == Stored(old(Snapshot(s)), t, t.position, t.rotation, t.scale)
    requires t.matrixDirty || t.LinkOf().Local() == old(t.LinkOf().Local())
    ensures World(Snapshot(s), x) == World(old(Snapshot(s)), x)
  {
    hide Link.Local, Below, World, Stored, Linked, Rooted;
    var f, g := old(Snapshot(s)), Snapshot(s);
    StoredIs(f, t);
    StoredKeepsOthers(f, t, t.position, t.rotation, t.scale);
    if t.matrixDirty {
      if Below(g, x, t) { FlaggedBelow(s, t, x); }
    } else {
      assert g[t].Local() == f[t].Local();
      WorldReadsAncestors(f, g, x);
    }
  }

  // An in-place turn of t is harmless if t's local matrix was stale, and with it everything
  // below, or if it comes out the same.
  twostate lemma CoherentAfterTurn(s: set<Transform>, new t: Transform)
    requires old(Linked(s)) && old(Coherent(s)) && Linked(s) && Flagged(s) && t in s
    requires Snapshot(s) == Stored(old(Snapshot(s)), t, t.position, t.rotation, t.scale)
    requires forall x :: x in s ==>
               && x.matrixCache == old(x.matrixCache) && x.worldCache == old(x.worldCache)
               && x.matrixDirty == old(x.matrixDirty) && x.worldDirty == old(x.worldDirty)
    requires t.matrixDirty || t.LinkOf().Local() == old(t.LinkOf().Local())
    ensures Coherent(s)
  {
    hide Link.Local, Below, World, Stored, Flagged, Rooted, Linked;
    var f, g := old(Snapshot(s)), Snapshot(s);
    LinkedIsRooted(s);
    RootedOnce(s);
    StoredIs(f, t);
    StoredKeepsOthers(f, t, t.position, t.rotation, t.scale);
    forall x | x in s
      ensures !x.matrixDirty ==> x.matrixCache == x.LinkOf().Local()
      ensures !x.worldDirty ==> x.worldCache == World(g, x)
    {
      assert g[x] == x.LinkOf() && f[x] == old(x.LinkOf());
      if !x.worldDirty {
        WorldAfterTurn(s, t, x);
      }
    }
  }

  // Filling t's world cache with the product makes it honest.
  twostate lemma CoherentClean(s: set<Transform>, new t: Transform)
    requires old(Linked(s)) && old(Coherent(s)) && Linked(s) && t in s && Snapshot(s) == old(Snapshot(s))
    requires forall x :: x in s ==>
               && x.matrixCache == old(x.matrixCache) && x.matrixDirty == old(x.matrixDirty)
               && x.LinkOf() == old(x.LinkOf())
               && (x != t ==> x.worldCache == old(x.worldCache) && x.worldDirty == old(x.worldDirty))
    requires t.worldCache == World(Snapshot(s), t)
    ensures Coherent(s)
  {
    hide World, Compose, Rotation;
  }

  // The child list of x after t has moved from one parent to another.
  function ChildrenAfter(children: seq<Transform>, x: Transform, t: Transform, from: Transform?,
                         to: Transform?): seq<Transform> {
    var left := if x == from then Without(children, t) else children;
    if x == to then left + [t] else left
  }

  lemma ListAfter(children: seq<Transform>, x: Transform, t: Transform, from: Transform?, to: Transform?)
    requires Distinct(children) && from != to && (t in children <==> x == from)
    ensures var c := ChildrenAfter(children, x, t, from, to);
            Distinct(c) && forall y :: y in c <==> (y in children && y != t) || (y == t && x == to)
  {
    hide Without, Distinct;
    var left := if x == from then Without(children, t) else children;
    WithoutDistinct(children, t);
    forall y
      ensures y in left <==> y in children && y != t
    {
      WithoutMember(children, t, y);
    }
    if x == to {
      AppendSpec(left, t);
    }
  }

  twostate lemma MovedSnapshot(s: set<Transform>, new t: Transform, new p: Transform?)
    requires t in s && t.parent == p && Rooted(old(Snapshot(s))) && (p != null ==> p in s)
    requires forall x :: x in s ==>
               && x.position == old(x.position) && x.rotation == old(x.rotation) && x.scale == old(x.scale)
               && (x != t ==> x.parent == old(x.parent))
               && x.rank == Lifted(old(Snapshot(s)), x, t, p)
    ensures Snapshot(s) == Moved(old(Snapshot(s)), t, p)
  {
    hide Lifted, Rooted;
    assert forall x :: x in s ==> old(x.LinkOf()) == old(Snapshot(s))[x];
  }

  twostate lemma MovedChildren(s: set<Transform>, new t: Transform, new p: Transform?, new x: Transform)
    requires old(Linked(s)) && t in s && x in s && old(t.parent) != p && t.parent == p
    requires forall y :: y in s && y != t ==> y.parent == old(y.parent)
    requires x.children == ChildrenAfter(old(x.children), x, t, old(t.parent), p)
    ensures Distinct(x.children)
    ensures forall y :: y in x.children <==> y in s && y.parent == x
  {
    hide ChildrenAfter, Distinct;
    var c := old(x.children);
    ListAfter(c, x, t, old(t.parent), p);
    assert forall y :: y in c <==> y in s && old(y.parent) == x;
  }

  lemma RootedIsLinked(s: set<Transform>)
    requires Rooted(Snapshot(s)) && forall x :: x in s && x.parent != null ==> x.parent in s
    requires forall x :: x in s ==> Distinct(x.children) && forall y :: y in x.children <==> y in s && y.parent == x
    ensures Linked(s)
  {
    hide Distinct;
    forall t | t in s && t.parent != null
      ensures t.parent.rank < t.rank
    {
      assert t in Snapshot(s) && Snapshot(s)[t] == t.LinkOf() && Snapshot(s)[t.parent] == t.parent.LinkOf();
    }
  }

  twostate lemma MovedParent(s: set<Transform>, new t: Transform, new p: Transform?)
    requires old(Linked(s)) && t.parent == p && (p != null ==> p in s)
    requires forall x :: x in s && x != t ==> x.parent == old(x.parent)
    ensures forall x :: x in s && x.parent != null ==> x.parent in s
  {
  }

  twostate lemma MovedLinks(s: set<Transform>, new t: Transform, new p: Transform?)
    requires old(Linked(s)) && t in s && old(t.parent) != p && t.parent == p
    requires Rooted(old(Snapshot(s))) && (p != null ==> p in s && !Below(old(Snapshot(s)), p, t))
    requires forall x :: x in s ==>
               && x.position == old(x.position) && x.rotation == old(x.rotation) && x.scale == old(x.scale)
               && (x != t ==> x.parent == old(x.parent))
               && x.children == ChildrenAfter(old(x.children), x, t, old(t.parent), p)
               && x.rank == Lifted(old(Snapshot(s)), x, t, p)
    ensures Linked(s)
    ensures Snapshot(s) == Moved(old(Snapshot(s)), t, p)
  {
    hide ChildrenAfter, Distinct, Below, Moved, Lifted, Linked;
    MovedIsRooted(old(Snapshot(s)), t, p);
    MovedSnapshot(s, t, p);
    forall x | x in s
      ensures Distinct(x.children)
      ensures forall y :: y in x.children <==> y in s && y.parent == x
    {
      MovedChildren(s, t, p, x);
    }
    MovedParent(s, t, p);
    RootedIsLinked(s);
  }

  lemma MovedLocal(f: Forest, t: Transform, p: Transform?, x: Transform)
    requires Rooted(f) && t in f && x in f && (p != null ==> p in f)
    ensures x in Moved(f, t, p) && Moved(f, t, p)[x].Local() == f[x].Local()
  {
  }

  twostate lemma CoherentAfterMove(s: set<Transform>, new t: Transform, new p: Transform?)
    requires old(Linked(s)) && old(Coherent(s)) && Linked(s) && t in s
    requires Rooted(old(Snapshot(s))) && (p != null ==> p in s && !Below(old(Snapshot(s)), p, t))
    requires Snapshot(s) == Moved(old(Snapshot(s)), t, p)
    requires forall x :: x in s ==>
               x.matrixCache == old(x.matrixCache) && x.worldCache == old(x.worldCache)
                 && x.matrixDirty == old(x.matrixDirty)
    requires DirtyIn(s) == old(DirtyIn(s)) + Subtree(Snapshot(s), t)
    ensures Coherent(s)
  {
    hide Link.Local, Below, World, Moved, Linked, Rooted;
    var f, g := old(Snapshot(s)), Snapshot(s);
    MovedIsRooted(f, t, p);
    forall x | x in s
      ensures !x.matrixDirty ==> x.matrixCache == x.LinkOf().Local()
      ensures !x.worldDirty ==> x.worldCache == World(g, x)
    {
      assert x.LinkOf() == g[x] && old(x.LinkOf()) == f[x];
      MovedLocal(f, t, p, x);
      if !x.worldDirty {
        assert x !in DirtyIn(s);
        assert x !in Subtree(g, t) && x !in old(DirtyIn(s));
        MovedBelow(f, t, p, x);
        MovedKeepsOthers(f, t, p, x);
      }
    }
  }

  // ------------------------------------------------------------------- the objects

  class Transform {
    var position: Vec3
    var rotation: Quat
    var scale: Vec3
    var matrixCache: Mat4
    var matrixDirty: bool
    var parent: Transform?
    var children: seq<Transform>
    var worldCache: Mat4
    var worldDirty: bool
    ghost var rank: nat

    constructor (position: Vec3, rotation: Quat, scale: Vec3)
      ensures this.position == position && this.rotation == rotation && this.scale == scale
      ensures parent == null && children == [] && rank == 0 && matrixDirty && worldDirty
    {
      this.position, this.rotation, this.scale := position, rotation, scale;
      this.matrixCache, this.matrixDirty := IDENTITY, true;
      this.worldCache, this.worldDirty := IDENTITY, true;
      this.parent, this.children, this.rank := null, [], 0;
    }

    ghost function LinkOf(): Link
      reads this
    {
      Link(position, rotation, scale, parent, rank)
    }

    // _markWorldMatrixDirty: this transform and everything below it.
    method MarkWorldMatrixDirty(ghost s: set<Transform>, ghost top: nat)
      requires this in s && Linked(s) && (forall x :: x in s ==> x.rank <= top)
      modifies s`worldDirty
      ensures Linked(s) && Snapshot(s) == old(Snapshot(s))
      ensures DirtyIn(s) == old(DirtyIn(s)) + Subtree(Snapshot(s), this)
      decreases top - rank
    {
      hide Linked, Snapshot, Subtree, Below;
      ghost var f := Snapshot(s);
      LinkedIsRooted(s);
      worldDirty := true;
      LinksKept(s);
      assert DirtyIn(s) == old(DirtyIn(s)) + {this} + Subtrees(f, children[..0]);
      hide DirtyIn, Subtrees;
      for i := 0 to |children|
        invariant Linked(s) && Snapshot(s) == f && children == old(children)
        invariant DirtyIn(s) == old(DirtyIn(s)) + {this} + Subtrees(f, children[..i])
      {
        ChildIn(s, this, i);
        children[i].MarkWorldMatrixDirty(s, top);
        OneMoreSubtree(f, children, i);
      }
      assert children[..|children|] == children;
      SubtreeOfChildren(s, this);
    }

    // _markDirty
    method MarkDirty(ghost s: set<Transform>)
      requires this in s && Linked(s)
      modifies this`matrixDirty, s`worldDirty
      ensures Linked(s) && Snapshot(s) == old(Snapshot(s))
      ensures DirtyIn(s) == old(DirtyIn(s)) + Subtree(Snapshot(s), this)
      ensures matrixDirty
    {
      hide Linked, Snapshot, Subtree, Below;
      ghost var top := TopRank(s);
      matrixDirty := true;
      LinksKept(s);
      assert DirtyIn(s) == old(DirtyIn(s));
      hide DirtyIn;
      MarkWorldMatrixDirty(s, top);
    }

    // What every mutator of the stored values comes down to: write them, then mark.
    method StoreAndMark(p: Vec3, r: Quat, c: Vec3, ghost s: set<Transform>)
      requires this in s && Linked(s)
      modifies this`position, this`rotation, this`scale, this`matrixDirty, s`worldDirty
      ensures Linked(s) && matrixDirty && position == p && rotation == r && scale == c
      ensures Snapshot(s) == Stored(old(Snapshot(s)), this, p, r, c)
      ensures DirtyIn(s) == old(DirtyIn(s)) + Subtree(Snapshot(s), this)
    {
      hide *;
      Store(p, r, c, s);
      MarkDirty(s);
    }

    method Store(p: Vec3, r: Quat, c: Vec3, ghost s: set<Transform>)
      requires this in s && Linked(s)
      modifies this`position, this`rotation, this`scale
      ensures Linked(s) && position == p && rotation == r && scale == c
      ensures Snapshot(s) == Stored(old(Snapshot(s)), this, p, r, c)
      ensures DirtyIn(s) == old(DirtyIn(s))
    {
      hide Linked, Snapshot, Stored;
      position, rotation, scale := p, r, c;
      StoredLinks(s, this);
    }

    // The position, rotation and scale setters leave a value that is close enough alone.
    method SetPosition(value: Vec3, ghost s: set<Transform>)
      requires this in s && Linked(s) && Coherent(s) && Flagged(s)
      modifies this`position, this`rotation, this`scale, this`matrixDirty, s`worldDirty
      ensures Linked(s) && Coherent(s) && Flagged(s)
      ensures Snapshot(s) == var f := old(Snapshot(s));
                if NearVec(f[this].position, value) then f else Stored(f, this, value, f[this].rotation, f[this].scale)
    {
      hide Linked, Coherent, Flagged, NearVec, Subtree, Below, Stored;
      if !NearVec(position, value) {
        StoreAndMark(value, rotation, scale, s);
        CoherentAfterStore(s, this);
        FlaggedAfterMark(s, this);
      }
    }

    method SetRotation(value: Quat, ghost s: set<Transform>)
      requires this in s && Linked(s) && Coherent(s) && Flagged(s)
      modifies this`position, this`rotation, this`scale, this`matrixDirty, s`worldDirty
      ensures Linked(s) && Coherent(s) && Flagged(s)
      ensures Snapshot(s) == var f := old(Snapshot(s));
                if NearQuat(f[this].rotation, value) then f else Stored(f, this, f[this].position, value, f[this].scale)
    {
      hide Linked, Coherent, Flagged, NearQuat, Subtree, Below, Stored;
      if !NearQuat(rotation, value) {
        StoreAndMark(position, value, scale, s);
        CoherentAfterStore(s, this);
        FlaggedAfterMark(s, this);
      }
    }

    method SetScale(value: Vec3, ghost s: set<Transform>)
      requires this in s && Linked(s) && Coherent(s) && Flagged(s)
      modifies this`position, this`rotation, this`scale, this`matrixDirty, s`worldDirty
      ensures Linked(s) && Coherent(s) && Flagged(s)
      ensures Snapshot(s) == var f := old(Snapshot(s));
                if NearVec(f[this].scale, value) then f else Stored(f, this, f[this].position, f[this].rotation, value)
    {
      hide Linked, Coherent, Flagged, NearVec, Subtree, Below, Stored;
      if !NearVec(scale, value) {
        StoreAndMark(position, rotation, value, s);
        CoherentAfterStore(s, this);
        FlaggedAfterMark(s, this);
      }
    }

    // copy and reset write and mark whatever the values were.
    method Copy(other: Transform, ghost s: set<Transform>)
      requires this in s && other in s && Linked(s) && Coherent(s) && Flagged(s)
      modifies this`position, this`rotation, this`scale, this`matrixDirty, s`worldDirty
      ensures Linked(s) && Coherent(s) && Flagged(s)
      ensures Snapshot(s) == var f := old(Snapshot(s));
                Stored(f, this, f[other].position, f[other].rotation, f[other].scale)
    {
      hide Linked, Coherent, Flagged, Subtree, Below, Stored;
      StoreAndMark(other.position, other.rotation, other.scale, s);
      CoherentAfterStore(s, this);
      FlaggedAfterMark(s, this);
    }

    method Reset(ghost s: set<Transform>)
      requires this in s && Linked(s) && Coherent(s) && Flagged(s)
      modifies this`position, this`rotation, this`scale, this`matrixDirty, s`worldDirty
      ensures Linked(s) && Coherent(s) && Flagged(s)
      ensures Snapshot(s) == Stored(old(Snapshot(s)), this, ZERO3, NO_ROTATION, ONE3)
    {
      hide Linked, Coherent, Flagged, Subtree, Below, Stored;
      StoreAndMark(ZERO3, NO_ROTATION, ONE3, s);
      CoherentAfterStore(s, this);
      FlaggedAfterMark(s, this);
    }

    // get matrix
    method GetMatrix(ghost s: set<Transform>) returns (m: Mat4)
      requires this in s && Linked(s) && Coherent(s) && Flagged(s)
      modifies this`matrixCache, this`matrixDirty
      ensures Linked(s) && Coherent(s) && Flagged(s) && Snapshot(s) == old(Snapshot(s))
      ensures m == LinkOf().Local() && !matrixDirty
      ensures forall v :: TransformVector(m, v) == Add(position, Turned(rotation, Stretched(scale, v)))
    {
      hide TransformVector, Turned, Stretched;
      if matrixDirty {
        matrixCache := Compose(position, Rotation(rotation), scale);
        matrixDirty := false;
      }
      LinksKept(s);
      FlaggedKept(s);
      LocalPlaces(LinkOf());
      m := matrixCache;
    }

    // get worldMatrix: the caches of this transform and of its ancestors are refreshed.
    method GetWorldMatrix(ghost s: set<Transform>) returns (m: Mat4)
      requires this in s && Linked(s) && Coherent(s) && Flagged(s)
      modifies s`matrixCache, s`matrixDirty, s`worldCache, s`worldDirty
      ensures Linked(s) && Coherent(s) && Flagged(s) && Snapshot(s) == old(Snapshot(s))
      ensures m == World(Snapshot(s), this) && !worldDirty
      ensures forall v :: TransformVector(m, v) == Reached(Snapshot(s), this, v)
      decreases rank
    {
      hide Linked, Coherent, Flagged, Snapshot, World, Multiply, Compose, Rotation, TransformVector, Reached, Rooted;
      LinkedIsRooted(s);
      SnapshotAt(s, this);
      if worldDirty {
        var product: Mat4;
        if parent != null {
          ParentIn(s, this);
          var above := parent.GetWorldMatrix(s);
          var local := GetMatrix(s);
          product := Multiply(above, local);
        } else {
          product := GetMatrix(s);
        }
        WorldIs(Snapshot(s), this);
        label Computed:
        worldCache, worldDirty := product, false;
        LinksKept@Computed(s);
        FlaggedClean@Computed(s, this);
        CoherentClean@Computed(s, this);
      }
      CleanWorld(s, this);
      WorldReaches(Snapshot(s), this);
      m := worldCache;
    }

    // set parent: leave the old parent's list, join the new one's, mark the subtree. The
    // new parent must not be in the subtree, or marking would never end.
    method SetParent(p: Transform?, ghost s: set<Transform>)
      requires this in s && Linked(s) && Coherent(s) && Flagged(s)
      requires p != null ==> p in s && Rooted(Snapshot(s)) && !Below(Snapshot(s), p, this)
      modifies s`parent, s`children, s`rank, s`worldDirty
      ensures Linked(s) && Coherent(s) && Flagged(s)
      ensures Rooted(old(Snapshot(s)))
      ensures Snapshot(s) == if old(parent) == p then old(Snapshot(s)) else Moved(old(Snapshot(s)), this, p)
      ensures parent == p && forall x :: x in s && x != this ==> x.parent == old(x.parent)
      ensures old(parent) == p ==> forall x :: x in s ==> x.children == old(x.children)
      ensures old(parent) != p ==> forall x :: x in s ==>
                x.children == ChildrenAfter(old(x.children), x, this, old(parent), p)
    {
      hide *;
      LinkedIsRooted(s);
      if parent == p {
        return;
      }
      ghost var f := Snapshot(s);
      SnapshotKeys(s);
      Relink(p, s, f);
      MovedLinks(s, this, p);
      ghost var top := TopRank(s);
      MarkWorldMatrixDirty(s, top);
      CoherentAfterMove(s, this, p);
      FlaggedAfterMark(s, this);
    }

    // The list surgery of the setter, and the rank bookkeeping.
    method Relink(p: Transform?, ghost s: set<Transform>, ghost f: Forest)
      requires this in s && Linked(s) && Rooted(f) && f.Keys == s && parent != p && (p != null ==> p in s)
      modifies s`parent, s`children, s`rank
      ensures parent == p
      ensures forall x :: x in s && x != this ==> x.parent == old(x.parent)
      ensures forall x :: x in s ==> x.children == ChildrenAfter(old(x.children), x, this, old(parent), p)
      ensures forall x :: x in s ==> x.rank == Lifted(f, x, this, p)
      ensures DirtyIn(s) == old(DirtyIn(s))
    {
      hide Linked, Lifted, IndexOf, Splice, Snapshot;
      if parent != null {
        ParentIn(s, this);
        var index := IndexOf(parent.children, this);
        if index != -1 {
          parent.children := Splice(parent.children, index);
        }
      }
      parent := p;
      if p != null {
        p.children := p.children + [this];
      }
      LiftRanks(p, s, f);
    }

    ghost method LiftRanks(p: Transform?, s: set<Transform>, f: Forest)
      requires Rooted(f) && f.Keys == s && (p != null ==> p in s)
      modifies s`rank
      ensures forall x :: x in s ==> x.rank == Lifted(f, x, this, p)
    {
      hide Lifted;
      forall x | x in s {
        x.rank := Lifted(f, x, this, p);
      }
    }

    // setWorldPosition: the local position that the parent's world matrix sends there.
    method SetWorldPosition(value: Vec3, ghost s: set<Transform>)
      requires this in s && Linked(s) && Coherent(s) && Flagged(s)
      modifies s`matrixCache, s`matrixDirty, s`worldCache, s`worldDirty
      modifies this`position, this`rotation, this`scale
      ensures Linked(s) && Coherent(s) && Flagged(s) && Rooted(old(Snapshot(s)))
      ensures Snapshot(s) == PutInWorld(old(Snapshot(s)), this, value)
    {
      hide *;
      LinkedIsRooted(s);
      SnapshotAt(s, this);
      ghost var f := Snapshot(s);
      var target := value;
      if parent != null {
        ParentIn(s, this);
        var above := parent.GetWorldMatrix(s);
        target := TransformVector(Inverse(above), value);
      }
      SetPosition(target, s);
      PutInWorldIs(f, this, value, target, parent);
    }

    // rotate in local space: Quaternion.multiply and normalize change the stored rotation
    // in place, and the setter then finds the value equal to itself and marks nothing.
    method RotateLocal(turn: Quat, norm: Quat -> Quat, ghost s: set<Transform>)
      requires this in s && Linked(s) && Coherent(s) && Flagged(s)
      modifies this`rotation
      ensures Linked(s) && Flagged(s)
      ensures Snapshot(s) == Stored(old(Snapshot(s)), this, position, norm(Hamilton(old(rotation), turn)), scale)
      // the caches stay honest exactly if the local matrix was due to be recomputed anyway, or
      // does not change
      ensures Coherent(s) <==> matrixDirty || LinkOf().Local() == old(LinkOf().Local())
    {
      hide Linked, Flagged, Hamilton, Compose, Rotation, Multiply, Below, Stored;
      LinkedIsRooted(s);
      rotation := norm(Hamilton(rotation, turn));
      StoredLinks(s, this);
      FlaggedKept(s);
      if matrixDirty || LinkOf().Local() == old(LinkOf().Local()) {
        CoherentAfterTurn(s, this);
      }
    }
  }

  // ------------------------------------------------------------- making transforms

  lemma CoherentJoins(s: set<Transform>, t: Transform)
    requires Linked(s) && Coherent(s) && Linked(s + {t}) && t.matrixDirty && t.worldDirty
    requires Rooted(Snapshot(s)) && Rooted(Snapshot(s + {t}))
    requires forall x :: x in s ==> World(Snapshot(s + {t}), x) == World(Snapshot(s), x)
    ensures Coherent(s + {t})
  {
    hide Linked, Link.Local, World, Rooted;
  }

  // A transform as the constructor leaves it may join any forest that is in order; nothing
  // that was there changes.
  lemma FreshJoins(s: set<Transform>, t: Transform)
    requires Linked(s) && Coherent(s) && Flagged(s) && t !in s
    requires t.parent == null && t.children == [] && t.matrixDirty && t.worldDirty
    ensures Linked(s + {t}) && Coherent(s + {t}) && Flagged(s + {t})
    ensures Snapshot(s + {t}) == Snapshot(s)[t := t.LinkOf()]
    ensures Rooted(Snapshot(s)) && Rooted(Snapshot(s + {t}))
    ensures forall x :: x in s ==> World(Snapshot(s + {t}), x) == World(Snapshot(s), x)
  {
    hide Coherent, Link.Local, World, Below;
    var f, g := Snapshot(s), Snapshot(s + {t});
    LinkedIsRooted(s);
    LinkedIsRooted(s + {t});
    forall x | x in s
      ensures World(g, x) == World(f, x)
    {
      WorldReadsAncestors(f, g, x);
    }
    hide Linked, Flagged, Snapshot;
    CoherentJoins(s, t);
  }

  // Allocating disturbs nothing.
  twostate lemma Untouched(s: set<Transform>)
    requires old(Linked(s)) && old(Coherent(s)) && old(Flagged(s)) && unchanged(s)
    ensures Linked(s) && Coherent(s) && Flagged(s) && Snapshot(s) == old(Snapshot(s))
  {
    LinksKept(s);
  }

  method Create(position: Vec3, rotation: Quat, scale: Vec3, ghost s: set<Transform>)
    returns (t: Transform)
    requires Linked(s) && Coherent(s) && Flagged(s)
    ensures fresh(t)
    ensures Linked(s + {t}) && Coherent(s + {t}) && Flagged(s + {t})
    ensures Snapshot(s + {t}) == old(Snapshot(s))[t := Link(position, rotation, scale, null, 0)]
  {
    hide Linked, Coherent, Flagged;
    t := new Transform(position, rotation, scale);
    Untouched(s);
    FreshJoins(s, t);
  }

  lemma NoneInOrder()
    ensures Linked({}) && Coherent({}) && Flagged({})
  {
  }

  // So forests of any size are in order from the start: here is one of n roots.
  method CreateAll(n: nat) returns (ts: seq<Transform>, ghost s: set<Transform>)
    ensures |ts| == n && Distinct(ts) && fresh(s) && s == set t | t in ts
    ensures Linked(s) && Coherent(s) && Flagged(s)
    ensures forall t :: t in s ==> t.LinkOf() == Link(ZERO3, NO_ROTATION, ONE3, null, 0)
  {
    hide Linked, Coherent, Flagged;
    ts, s := [], {};
    NoneInOrder();
    for i := 0 to n
      invariant |ts| == i && Distinct(ts) && fresh(s) && s == set t | t in ts
      invariant Linked(s) && Coherent(s) && Flagged(s)
      invariant forall t :: t in s ==> t.LinkOf() == Link(ZERO3, NO_ROTATION, ONE3, null, 0)
    {
      var t := Create(ZERO3, NO_ROTATION, ONE3, s);
      SnapshotAt(s + {t}, t);
      ts, s := ts + [t], s + {t};
    }
  }

  // ------------------------------------------------------ a turn that marks nothing

  function TwiceSquare(a: real): real { a * (a + a) }

  lemma FirstEntry(p: Vec3, q: Quat, s: Vec3)
    requires s.x == 1.0
    ensures Compose(p, Rotation(q), s).e0 == 1.0 - (TwiceSquare(q.y) + TwiceSquare(q.z))
  {
  }

  lemma UnitTimes(x: real)
    ensures 0.0 * x == 0.0 && 1.0 * x == x
  {
  }

  lemma UnitTurn(q: Quat)
    ensures Hamilton(NO_ROTATION, q) == q
  {
    UnitTimes(q.x);
    UnitTimes(q.y);
    UnitTimes(q.z);
    UnitTimes(q.w);
  }

  lemma LocalMatrices()
    ensures Compose(ZERO3, Rotation(NO_ROTATION), ONE3).e0 == 1.0
    ensures var turn := Quat(0.0, 0.0, 1.0, 0.0);
            Hamilton(NO_ROTATION, turn) == turn && Compose(ZERO3, Rotation(turn), ONE3).e0 == -1.0
  {
    hide Compose, Rotation, Hamilton;
    var turn := Quat(0.0, 0.0, 1.0, 0.0);
    FirstEntry(ZERO3, NO_ROTATION, ONE3);
    FirstEntry(ZERO3, turn, ONE3);
    UnitTurn(turn);
  }

  lemma AloneWorld(t: Transform)
    requires Linked({t}) && t.parent == null
    ensures World(Snapshot({t}), t) == t.LinkOf().Local()
  {
  }

  // Reading the world matrix and then turning half around in local space leaves a stale cache.
  method LocalRotationGoesStale() returns (t: Transform)
    ensures Linked({t}) && !Coherent({t})
  {
    hide Linked, Compose, Rotation, Hamilton, Subtree;
    NoneInOrder();
    t := Create(ZERO3, NO_ROTATION, ONE3, {});
    SnapshotAt({t}, t);
    assert {} + {t} == {t};
    LocalMatrices();
    var before := t.GetWorldMatrix({t});
    AloneWorld(t);
    var turn := Quat(0.0, 0.0, 1.0, 0.0);
    t.RotateLocal(turn, q => q, {t});
    AloneWorld(t);
  }

  // ------------------------------------------------------------- whole runs

  datatype Op =
    | SetPositionOp(t: Transform, v: Vec3)
    | SetRotationOp(t: Transform, q: Quat)
    | SetScaleOp(t: Transform, v: Vec3)
    | CopyOp(t: Transform, from: Transform)
    | ResetOp(t: Transform)
    | SetWorldPositionOp(t: Transform, v: Vec3)
    | SetParentOp(t: Transform, p: Transform?)
    | ReadWorldOp(t: Transform)

  // Operations name transforms of the forest, and reparenting makes no cycle.
  ghost predicate Legal(f: Forest, op: Op) {
    && Rooted(f) && op.t in f
    && (op.CopyOp? ==> op.from in f)
    && (op.SetParentOp? && op.p != null ==> op.p in f && !Below(f, op.p, op.t))
  }

  // What an operation does to the stored values, with no caches in sight.
  ghost function Step(f: Forest, op: Op): Forest
    requires Legal(f, op)
  {
    var l := f[op.t];
    match op
    case SetPositionOp(t, v) => if NearVec(l.position, v) then f else Stored(f, t, v, l.rotation, l.scale)
    case SetRotationOp(t, q) => if NearQuat(l.rotation, q) then f else Stored(f, t, l.position, q, l.scale)
    case SetScaleOp(t, v) => if NearVec(l.scale, v) then f else Stored(f, t, l.position, l.rotation, v)
    case CopyOp(t, from) => Stored(f, t, f[from].position, f[from].rotation, f[from].scale)
    case ResetOp(t) => Stored(f, t, ZERO3, NO_ROTATION, ONE3)
    case SetWorldPositionOp(t, v) => PutInWorld(f, t, v)
    case SetParentOp(t, p) => if l.parent == p then f else Moved(f, t, p)
    case ReadWorldOp(t) => f
  }

  // What an operation reports: a read gives the product computed from scratch.
  ghost function Answer(f: Forest, op: Op): seq<Mat4>
    requires Legal(f, op)
  {
    if op.ReadWorldOp? then [World(f, op.t)] else []
  }

  ghost predicate AllLegal(f: Forest, ops: seq<Op>) {
    ops == [] || (Legal(f, ops[0]) && AllLegal(Step(f, ops[0]), ops[1..]))
  }

  ghost function FinalForest(f: Forest, ops: seq<Op>): Forest
    requires AllLegal(f, ops)
  {
    if ops == [] then f else FinalForest(Step(f, ops[0]), ops[1..])
  }

  ghost function Answers(f: Forest, ops: seq<Op>): seq<Mat4>
    requires AllLegal(f, ops)
  {
    if ops == [] then [] else Answer(f, ops[0]) + Answers(Step(f, ops[0]), ops[1..])
  }

  method Execute(op: Op, ghost s: set<Transform>) returns (answer: seq<Mat4>)
    requires Linked(s) && Coherent(s) && Flagged(s) && Legal(Snapshot(s), op)
    modifies s
    ensures Linked(s) && Coherent(s) && Flagged(s)
    ensures Snapshot(s) == Step(old(Snapshot(s)), op) && answer == Answer(old(Snapshot(s)), op)
    ensures !op.SetParentOp? ==> forall x :: x in s ==> x.children == old(x.children) && x.parent == old(x.parent)
  {
    hide Linked, Coherent, Flagged, Below, Stored, Moved, PutInWorld, NearVec, NearQuat;
    answer := [];
    match op {
      case SetPositionOp(t, v) => t.SetPosition(v, s);
      case SetRotationOp(t, q) => t.SetRotation(q, s);
      case SetScaleOp(t, v) => t.SetScale(v, s);
      case CopyOp(t, from) => t.Copy(from, s);
      case ResetOp(t) => t.Reset(s);
      case SetWorldPositionOp(t, v) => t.SetWorldPosition(v, s);
      case SetParentOp(t, p) => t.SetParent(p, s);
      case ReadWorldOp(t) =>
        var m := t.GetWorldMatrix(s);
        answer := [m];
    }
  }

  // Over any legal run the cached hierarchy cannot be told from one that recomputes every
  // product from the stored local matrices.
  method Run(ops: seq<Op>, ghost s: set<Transform>) returns (answers: seq<Mat4>)
    requires Linked(s) && Coherent(s) && Flagged(s) && AllLegal(Snapshot(s), ops)
    modifies s
    ensures Linked(s) && Coherent(s) && Flagged(s)
    ensures Snapshot(s) == FinalForest(old(Snapshot(s)), ops)
    ensures answers == Answers(old(Snapshot(s)), ops)
  {
    hide Linked, Coherent, Flagged, Step, Answer, Legal, Snapshot;
    answers := [];
    ghost var f := Snapshot(s);
    assert ops[0..] == ops;
    for i := 0 to |ops|
      invariant Linked(s) && Coherent(s) && Flagged(s) && AllLegal(Snapshot(s), ops[i..])
      invariant FinalForest(Snapshot(s), ops[i..]) == FinalForest(f, ops)
      invariant answers + Answers(Snapshot(s), ops[i..]) == Answers(f, ops)
    {
      ghost var now := Snapshot(s);
      assert ops[i..][0] == ops[i] && ops[i..][1..] == ops[i + 1..];
      var answer := Execute(ops[i], s);
      answers := answers + answer;
    }
    assert ops[|ops|..] == [];
  }
}
