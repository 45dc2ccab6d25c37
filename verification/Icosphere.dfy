// createSphere: an icosahedron whose triangles are split in four, level after level,
// sharing the midpoints of their edges through a cache that lives for one level.
// Normalisation to unit length is the parameter norm.
module Icosphere {
  import opened Geometry
  import opened Meshes
  import opened Subdivision
  import opened Surfaces
  import opened SphereShape
  import Icosahedron

  function KeysWith(idx: seq<nat>, t: nat, keys: set<Key>): set<Key>
    requires t < Triangles(idx)
  {
    keys + {EdgeKey(idx, t, 0), EdgeKey(idx, t, 1), EdgeKey(idx, t, 2)}
  }

  // The keys of the first m triangles.
  function KeysUpTo(idx: seq<nat>, m: nat): set<Key>
    requires m <= Triangles(idx)
  {
    if m == 0 then {}
    else KeysWith(idx, m - 1, KeysUpTo(idx, m - 1))
  }

  lemma {:induction false} KeysUpToAre(idx: seq<nat>, m: nat, e: Key)
    requires m <= Triangles(idx)
    ensures e in KeysUpTo(idx, m) <==> exists t, k: Slot :: 0 <= t < m && e == EdgeKey(idx, t, k)
  {
    if m > 0 {
      KeysUpToAre(idx, m - 1, e);
      if e in KeysUpTo(idx, m) && e !in KeysUpTo(idx, m - 1) {
        var k: Slot := if e == EdgeKey(idx, m - 1, 0) then 0 else if e == EdgeKey(idx, m - 1, 1) then 1 else 2;
        assert e == EdgeKey(idx, m - 1, k);
      }
    }
  }

  lemma AllKeys(idx: seq<nat>)
    ensures KeysUpTo(idx, Triangles(idx)) == UndirectedEdges(idx)
  {
    forall e
      ensures e in KeysUpTo(idx, Triangles(idx)) <==> e in UndirectedEdges(idx)
    {
      KeysUpToAre(idx, Triangles(idx), e);
    }
  }

  // Point i is the normalised midpoint of edge e.
  ghost predicate Placed(vertices: seq<real>, norm: Vec3 -> Vec3, e: Key, i: nat) {
    && e.0 < Points(vertices) && e.1 < Points(vertices) && i < Points(vertices)
    && PointOf(vertices, i) == norm(Halfway(PointOf(vertices, e.0), PointOf(vertices, e.1)))
  }

  // The cache numbers its keys from base on, one new point each, placed halfway and normalised.
  ghost predicate CacheOk(cache: Midpoints, base: nat, vertices: seq<real>, norm: Vec3 -> Vec3) {
    && |vertices| == 3 * Points(vertices)
    && Points(vertices) == base + |cache|
    && (forall e :: e in cache ==> e.0 < base && e.1 < base && base <= cache[e] < Points(vertices))
    && (forall e, f :: e in cache && f in cache && cache[e] == cache[f] ==> e == f)
    && (forall e :: e in cache ==> Placed(vertices, norm, e, cache[e]))
  }

  ghost predicate Extends(a: seq<real>, b: seq<real>) {
    |a| <= |b| && a == b[..|a|]
  }

  lemma PointKept(a: seq<real>, b: seq<real>, i: nat)
    requires Extends(a, b) && i < Points(a)
    ensures i < Points(b) && PointOf(a, i) == PointOf(b, i)
  {
    assert b[..|a|][3 * i] == b[3 * i] && b[..|a|][3 * i + 1] == b[3 * i + 1] && b[..|a|][3 * i + 2] == b[3 * i + 2];
  }

  lemma PlacedKept(a: seq<real>, b: seq<real>, norm: Vec3 -> Vec3, e: Key, i: nat)
    requires Extends(a, b) && Placed(a, norm, e, i)
    ensures Placed(b, norm, e, i)
  {
    hide PointOf, Halfway, Extends;
    PointKept(a, b, e.0);
    PointKept(a, b, e.1);
    PointKept(a, b, i);
  }

  ghost predicate CacheGrows(a: Midpoints, b: Midpoints) {
    forall e :: e in a ==> e in b && b[e] == a[e]
  }

  lemma NewPoint(vertices: seq<real>, norm: Vec3 -> Vec3, e: Key, m: Vec3)
    requires |vertices| == 3 * Points(vertices) && e.0 < Points(vertices) && e.1 < Points(vertices)
    requires m == norm(Halfway(PointOf(vertices, e.0), PointOf(vertices, e.1)))
    ensures var after := vertices + [m.x, m.y, m.z];
            && |after| == 3 * Points(after) && Points(after) == Points(vertices) + 1
            && Extends(vertices, after) && Placed(after, norm, e, Points(vertices))
  {
    hide Halfway;
    var after := vertices + [m.x, m.y, m.z];
    PointKept(vertices, after, e.0);
    PointKept(vertices, after, e.1);
    assert PointOf(after, Points(vertices)) == m;
  }

  lemma CacheAdd(cache: Midpoints, base: nat, vertices: seq<real>, norm: Vec3 -> Vec3, e: Key, m: Vec3)
    requires CacheOk(cache, base, vertices, norm) && e !in cache && e.0 < base && e.1 < base
    requires m == norm(Halfway(PointOf(vertices, e.0), PointOf(vertices, e.1)))
    ensures CacheOk(cache[e := Points(vertices)], base, vertices + [m.x, m.y, m.z], norm)
    ensures Extends(vertices, vertices + [m.x, m.y, m.z])
  {
    hide Placed, Halfway, Extends;
    var n := Points(vertices);
    var after, cache' := vertices + [m.x, m.y, m.z], cache[e := n];
    NewPoint(vertices, norm, e, m);
    assert |cache'| == |cache| + 1;
    forall f | f in cache'
      ensures Placed(after, norm, f, cache'[f])
    {
      if f != e { PlacedKept(vertices, after, norm, f, cache[f]); }
    }
  }

  lemma TriangleCorners(base: nat, idx: seq<nat>, t: nat)
    requires Proper(base, idx) && t < Triangles(idx)
    ensures idx[3 * t] < base && idx[3 * t + 1] < base && idx[3 * t + 2] < base
    ensures EdgeKey(idx, t, 0) == KeyOf(idx[3 * t], idx[3 * t + 1])
    ensures EdgeKey(idx, t, 1) == KeyOf(idx[3 * t + 1], idx[3 * t + 2])
    ensures EdgeKey(idx, t, 2) == KeyOf(idx[3 * t + 2], idx[3 * t])
  {
    assert Org(idx, t, 0) < base && Org(idx, t, 1) < base && Org(idx, t, 2) < base;
  }

  lemma BlockOf(idx: seq<nat>, mid: Midpoints, t: nat, ab: nat, bc: nat, ca: nat)
    requires t < Triangles(idx)
    requires EdgeKey(idx, t, 0) in mid && EdgeKey(idx, t, 1) in mid && EdgeKey(idx, t, 2) in mid
    requires mid[EdgeKey(idx, t, 0)] == ab && mid[EdgeKey(idx, t, 1)] == bc && mid[EdgeKey(idx, t, 2)] == ca
    ensures HasKeys(idx, mid, t)
    ensures var a, b, c := idx[3 * t], idx[3 * t + 1], idx[3 * t + 2];
            Block(idx, mid, t) == [a, ab, ca, b, bc, ab, c, ca, bc, ab, bc, ca]
  {
    forall k: Slot
      ensures EdgeKey(idx, t, k) in mid
    {
      assert k == 0 || k == 1 || k == 2;
    }
  }

  lemma CacheRoom(cache: Midpoints, base: nat, vertices: seq<real>, norm: Vec3 -> Vec3)
    requires CacheOk(cache, base, vertices, norm)
    ensures 3 * base <= |vertices| == 3 * Points(vertices)
  {
  }

  lemma CacheEmpty(vertices: seq<real>, norm: Vec3 -> Vec3)
    requires |vertices| == 3 * Points(vertices)
    ensures CacheOk(map[], Points(vertices), vertices, norm)
  {
  }

  // The first m blocks are in place.
  ghost predicate BlocksDone(idx: seq<nat>, out: seq<nat>, cache: Midpoints, m: nat) {
    && m <= Triangles(idx) && |out| == 12 * m
    && forall t :: 0 <= t < m ==> BlockDone(idx, out, cache, t)
  }

  lemma BlockKept(idx: seq<nat>, before: Midpoints, cache: Midpoints, t: nat)
    requires t < Triangles(idx) && HasKeys(idx, before, t) && CacheGrows(before, cache)
    ensures HasKeys(idx, cache, t) && Block(idx, before, t) == Block(idx, cache, t)
  {
  }

  lemma AddBlock(idx: seq<nat>, out: seq<nat>, before: Midpoints, cache: Midpoints, m: nat, block: seq<nat>)
    requires BlocksDone(idx, out, before, m) && m < Triangles(idx) && CacheGrows(before, cache)
    requires HasKeys(idx, cache, m) && block == Block(idx, cache, m)
    ensures BlocksDone(idx, out + block, cache, m + 1)
  {
    hide Block, HasKeys;
    var after := out + block;
    forall t | 0 <= t < m + 1
      ensures BlockDone(idx, after, cache, t)
    {
      if t < m {
        assert BlockDone(idx, out, before, t);
        assert after[12 * t..12 * t + 12] == out[12 * t..12 * t + 12];
        BlockKept(idx, before, cache, t);
      } else {
        assert after[12 * t..12 * t + 12] == block;
      }
    }
  }

  lemma BlocksAreSubdivision(idx: seq<nat>, out: seq<nat>, cache: Midpoints, base: nat,
                             vertices: seq<real>, norm: Vec3 -> Vec3)
    requires Proper(base, idx) && BlocksDone(idx, out, cache, Triangles(idx))
    requires CacheOk(cache, base, vertices, norm) && cache.Keys == UndirectedEdges(idx)
    ensures Subdivides(idx, out, cache, base, Points(vertices))
  {
  }

  class Subdivider {
    var vertices: seq<real>
    var midpointCache: Midpoints
    const norm: Vec3 -> Vec3

    constructor (vertices: seq<real>, norm: Vec3 -> Vec3)
      ensures this.vertices == vertices && this.norm == norm
    {
      this.vertices := vertices;
      this.midpointCache := map[];
      this.norm := norm;
    }

    method GetMidpoint(i1: nat, i2: nat, ghost base: nat) returns (index: nat)
      requires i1 < base && i2 < base && CacheOk(midpointCache, base, vertices, norm)
      modifies this
      ensures CacheOk(midpointCache, base, vertices, norm)
      ensures Extends(old(vertices), vertices) && CacheGrows(old(midpointCache), midpointCache)
      ensures midpointCache.Keys == old(midpointCache).Keys + {KeyOf(i1, i2)}
      ensures index == midpointCache[KeyOf(i1, i2)]
    {
      hide CacheOk, Halfway;
      CacheRoom(midpointCache, base, vertices, norm);
      var key := KeyOf(i1, i2);
      if key in midpointCache {
        return midpointCache[key];
      }
      var v1 := Vec3(vertices[i1 * 3], vertices[i1 * 3 + 1], vertices[i1 * 3 + 2]);
      var v2 := Vec3(vertices[i2 * 3], vertices[i2 * 3 + 1], vertices[i2 * 3 + 2]);
      var mid := norm(Halfway(v1, v2));
      HalfwaySwap(v1, v2);
      CacheAdd(midpointCache, base, vertices, norm, key, mid);
      index := |vertices| / 3;
      vertices := vertices + [mid.x, mid.y, mid.z];
      midpointCache := midpointCache[key := index];
    }

    // One triangle: its three midpoints, then its twelve new indices.
    method SplitTriangle(indices: seq<nat>, t: nat, ghost base: nat) returns (block: seq<nat>)
      requires Proper(base, indices) && t < Triangles(indices)
      requires CacheOk(midpointCache, base, vertices, norm)
      modifies this
      ensures CacheOk(midpointCache, base, vertices, norm)
      ensures Extends(old(vertices), vertices) && CacheGrows(old(midpointCache), midpointCache)
      ensures midpointCache.Keys == KeysWith(indices, t, old(midpointCache).Keys)
      ensures HasKeys(indices, midpointCache, t) && block == Block(indices, midpointCache, t)
    {
      hide CacheOk, Proper, HasKeys, Block, EdgeKey, KeyOf;
      TriangleCorners(base, indices, t);
      var j := 3 * t;
      var a, b, c := indices[j], indices[j + 1], indices[j + 2];
      var ab := GetMidpoint(a, b, base);
      var bc := GetMidpoint(b, c, base);
      var ca := GetMidpoint(c, a, base);
      block := [a, ab, ca, b, bc, ab, c, ca, bc, ab, bc, ca];
      BlockOf(indices, midpointCache, t, ab, bc, ca);
    }

    // One level. The mesh that results is the subdivision of the one given, numbered by
    // the cache; older points stay where they are.
    method SubdivideOnce(indices: seq<nat>) returns (newIndices: seq<nat>)
      requires |vertices| == 3 * Points(vertices) && Proper(Points(vertices), indices)
      modifies this
      ensures Subdivides(indices, newIndices, midpointCache, Points(old(vertices)), Points(vertices))
      ensures CacheOk(midpointCache, Points(old(vertices)), vertices, norm)
      ensures Extends(old(vertices), vertices)
    {
      hide CacheOk, Subdivides, HasKeys, Block, EdgeKey, Points, Proper;
      newIndices := [];
      midpointCache := map[];
      ghost var base := Points(vertices);
      CacheEmpty(vertices, norm);
      var triangles := |indices| / 3;
      for t := 0 to triangles
        invariant CacheOk(midpointCache, base, vertices, norm)
        invariant Extends(old(vertices), vertices)
        invariant midpointCache.Keys == KeysUpTo(indices, t)
        invariant BlocksDone(indices, newIndices, midpointCache, t)
      {
        ghost var before := midpointCache;
        var block := SplitTriangle(indices, t, base);
        AddBlock(indices, newIndices, before, midpointCache, t, block);
        newIndices := newIndices + block;
      }
      AllKeys(indices);
      BlocksAreSubdivision(indices, newIndices, midpointCache, base, vertices, norm);
    }
  }

  // --------------------------------------------------------------- the whole sphere

  function Pow4(s: nat): nat {
    if s == 0 then 1 else 4 * Pow4(s - 1)
  }

  // The mesh after s levels: a closed oriented surface in one piece with no point over, and
  // exact counts.
  ghost predicate SphereMesh(s: nat, points: nat, indices: seq<nat>) {
    && Manifold(points, indices) && Connected(indices) && Spanning(points, indices)
    && Triangles(indices) == 20 * Pow4(s)
    && points == 10 * Pow4(s) + 2
    && |UndirectedEdges(indices)| == 30 * Pow4(s)
  }

  lemma ManifoldEdges(points: nat, indices: seq<nat>)
    requires Manifold(points, indices)
    ensures 2 * |UndirectedEdges(indices)| == |indices|
  {
    UndirectedCount(points, indices);
  }

  lemma StartMesh()
    ensures SphereMesh(0, 12, Icosahedron.BaseIndices())
  {
    hide Manifold, Connected, Spanning;
    Icosahedron.BaseIsManifold();
    Icosahedron.BaseIsConnected();
    Icosahedron.BaseIsSpanning();
    ManifoldEdges(12, Icosahedron.BaseIndices());
  }

  lemma StartPoints(g: real)
    ensures Points(BasePoints(g)) == 12 && |BasePoints(g)| == 36
  {
  }

  lemma NextMesh(s: nat, points: nat, indices: seq<nat>, mid: Midpoints, points': nat, indices': seq<nat>)
    requires SphereMesh(s, points, indices) && Subdivides(indices, indices', mid, points, points')
    ensures SphereMesh(s + 1, points', indices')
  {
    hide Manifold, Subdivides, Connected, Spanning;
    ConnectedKept(indices, indices', mid, points, points');
    SpanningKept(indices, indices', mid, points, points');
    LevelCounts(indices, indices', mid, points, points');
    ManifoldKept(indices, indices', mid, points, points');
  }

  // The characteristic of a sphere.
  lemma EulerCharacteristic(s: nat, points: nat, indices: seq<nat>)
    requires SphereMesh(s, points, indices)
    ensures points - |UndirectedEdges(indices)| + Triangles(indices) == 2
  {
  }

  ghost predicate RefinesBy(mid: Midpoints, v0: seq<real>, i0: seq<nat>, v: seq<real>, i: seq<nat>,
                            norm: Vec3 -> Vec3) {
    Subdivides(i0, i, mid, Points(v0), Points(v)) && CacheOk(mid, Points(v0), v, norm) && Extends(v0, v)
  }

  // One level: every edge has its normalised midpoint, numbered after the old points, and
  // every triangle is split at its three midpoints.
  ghost predicate Refines(v0: seq<real>, i0: seq<nat>, v: seq<real>, i: seq<nat>, norm: Vec3 -> Vec3) {
    exists mid: Midpoints :: RefinesBy(mid, v0, i0, v, i, norm)
  }

  ghost predicate Subdivided(s: nat, v: seq<real>, i: seq<nat>, g: real, norm: Vec3 -> Vec3) {
    if s == 0 then v == BasePoints(g) && i == Icosahedron.BaseIndices()
    else exists v0: seq<real>, i0: seq<nat> :: Subdivided(s - 1, v0, i0, g, norm) && Refines(v0, i0, v, i, norm)
  }

  lemma MidPlaced(v0: seq<real>, i0: seq<nat>, v: seq<real>, i: seq<nat>, norm: Vec3 -> Vec3, mid: Midpoints,
                  t: nat, k: Slot)
    requires RefinesBy(mid, v0, i0, v, i, norm) && Outward(v0, i0) && t < Triangles(i0) && HasKeys(i0, mid, t)
    ensures Org(i0, t, k) < Points(v0) && Org(i0, t, Succ(k)) < Points(v0) && Mid(i0, mid, t, k) < Points(v)
    ensures PointOf(v, Mid(i0, mid, t, k)) == norm(Halfway(CornerOf(v0, i0, t, k), CornerOf(v0, i0, t, Succ(k))))
  {
    hide PointOf, Halfway, Volume, Subdivides;
    assert OutwardAt(v0, i0, t);
    var e := EdgeKey(i0, t, k);
    assert Placed(v, norm, e, mid[e]);
    PointKept(v0, v, e.0);
    PointKept(v0, v, e.1);
    HalfwaySwap(CornerOf(v0, i0, t, k), CornerOf(v0, i0, t, Succ(k)));
  }

  lemma OldCorner(v0: seq<real>, i0: seq<nat>, v: seq<real>, t: nat, k: Slot)
    requires Extends(v0, v) && Outward(v0, i0) && t < Triangles(i0)
    ensures Org(i0, t, k) < Points(v0) <= Points(v) && CornerOf(v0, i0, t, k) == PointOf(v, Org(i0, t, k))
  {
    hide PointOf, Volume;
    assert OutwardAt(v0, i0, t);
    PointKept(v0, v, Org(i0, t, k));
  }

  lemma OutwardPart(v0: seq<real>, i0: seq<nat>, v: seq<real>, i: seq<nat>, norm: Vec3 -> Vec3, mid: Midpoints,
                    t: nat, q: nat)
    requires RefinesBy(mid, v0, i0, v, i, norm) && Outward(v0, i0) && Radial(norm)
    requires |i0| == 3 * Triangles(i0) && t < Triangles(i0) && q < 4
    ensures 4 * t + q < Triangles(i) && OutwardAt(v, i, 4 * t + q)
  {
    hide PointOf, Volume, Halfway, Radial, Subdivides, CacheOk, HasKeys, Mid, Org, Extends;
    BlockIndices(i0, i, mid, Points(v0), Points(v), t, q, 0);
    BlockIndices(i0, i, mid, Points(v0), Points(v), t, q, 1);
    BlockIndices(i0, i, mid, Points(v0), Points(v), t, q, 2);
    assert OutwardAt(v0, i0, t);
    OldCorner(v0, i0, v, t, 0);
    OldCorner(v0, i0, v, t, 1);
    OldCorner(v0, i0, v, t, 2);
    MidPlaced(v0, i0, v, i, norm, mid, t, 0);
    MidPlaced(v0, i0, v, i, norm, mid, t, 1);
    MidPlaced(v0, i0, v, i, norm, mid, t, 2);
    PartsTurnOutward(CornerOf(v0, i0, t, 0), CornerOf(v0, i0, t, 1), CornerOf(v0, i0, t, 2), norm);
  }

  lemma FourTimes(mid: Midpoints, v0: seq<real>, i0: seq<nat>, v: seq<real>, i: seq<nat>, norm: Vec3 -> Vec3)
    requires RefinesBy(mid, v0, i0, v, i, norm) && |i0| == 3 * Triangles(i0)
    ensures |i| == 3 * Triangles(i) && Triangles(i) == 4 * Triangles(i0)
  {
    hide CacheOk, Extends, BlockDone, Numbers;
  }

  // A level keeps every triangle turned outward.
  lemma OutwardKept(v0: seq<real>, i0: seq<nat>, v: seq<real>, i: seq<nat>, norm: Vec3 -> Vec3)
    requires Refines(v0, i0, v, i, norm) && Outward(v0, i0) && Radial(norm) && |i0| == 3 * Triangles(i0)
    ensures Outward(v, i) && |i| == 3 * Triangles(i)
  {
    hide OutwardAt, Radial, RefinesBy;
    var mid: Midpoints :| RefinesBy(mid, v0, i0, v, i, norm);
    FourTimes(mid, v0, i0, v, i, norm);
    forall t: nat | t < Triangles(i)
      ensures OutwardAt(v, i, t)
    {
      OutwardPart(v0, i0, v, i, norm, mid, t / 4, t % 4);
    }
  }

  // So every mesh of the run turns its faces outward.
  lemma {:induction false} SubdividedOutward(s: nat, v: seq<real>, i: seq<nat>, g: real, norm: Vec3 -> Vec3)
    requires Subdivided(s, v, i, g, norm) && Golden(g) && Radial(norm)
    ensures Outward(v, i) && |i| == 3 * Triangles(i)
  {
    hide Outward, Radial, Refines, BasePoints, Icosahedron.BaseIndices;
    if s == 0 {
      BaseIsOutward(g);
    } else {
      var v0: seq<real>, i0: seq<nat> :| Subdivided(s - 1, v0, i0, g, norm) && Refines(v0, i0, v, i, norm);
      SubdividedOutward(s - 1, v0, i0, g, norm);
      OutwardKept(v0, i0, v, i, norm);
    }
  }

  predicate FaceOutward(center: Vec3, result: seq<real>, idx: seq<nat>, t: nat)
    requires t < Triangles(idx)
  {
    && Org(idx, t, 0) < Points(result) && Org(idx, t, 1) < Points(result) && Org(idx, t, 2) < Points(result)
    && Volume(Sub(CornerOf(result, idx, t, 0), center), Sub(CornerOf(result, idx, t, 1), center),
              Sub(CornerOf(result, idx, t, 2), center)) > 0.0
  }

  // Seen from the centre, every triangle of the result turns outward.
  ghost predicate OutwardFrom(center: Vec3, result: seq<real>, idx: seq<nat>) {
    forall t: nat :: t < Triangles(idx) ==> FaceOutward(center, result, idx, t)
  }

  lemma ResultOutward(points: seq<real>, idx: seq<nat>, result: seq<real>, center: Vec3, radius: real,
                      norm: Vec3 -> Vec3)
    requires Outward(points, idx) && Radial(norm) && radius > 0.0 && |result| == |points|
    requires forall i :: 0 <= i < Points(points) ==>
               PointOf(result, i) == Add(Scale(radius, norm(PointOf(points, i))), center)
    ensures OutwardFrom(center, result, idx)
  {
    hide PointOf, Volume, Radial, Add, Scale, Sub;
    forall t: nat | t < Triangles(idx)
      ensures FaceOutward(center, result, idx, t)
    {
      assert OutwardAt(points, idx, t);
      PlacedOutward(CornerOf(points, idx, t, 0), CornerOf(points, idx, t, 1), CornerOf(points, idx, t, 2),
                    norm, radius, center);
    }
  }

  lemma RefinedBy(mid: Midpoints, v0: seq<real>, i0: seq<nat>, v: seq<real>, i: seq<nat>, norm: Vec3 -> Vec3)
    requires Subdivides(i0, i, mid, Points(v0), Points(v)) && CacheOk(mid, Points(v0), v, norm) && Extends(v0, v)
    ensures Refines(v0, i0, v, i, norm)
  {
    hide Subdivides, CacheOk, Extends;
    assert RefinesBy(mid, v0, i0, v, i, norm);
  }

  lemma MeshIsProper(s: nat, points: nat, indices: seq<nat>)
    requires SphereMesh(s, points, indices)
    ensures Proper(points, indices)
  {
  }

  lemma SamePoints(a: seq<real>, b: seq<real>)
    requires |a| == |b|
    ensures Points(a) == Points(b)
  {
  }

  lemma OnceMore(s: nat, v0: seq<real>, i0: seq<nat>, v: seq<real>, i: seq<nat>, g: real, norm: Vec3 -> Vec3)
    requires Subdivided(s, v0, i0, g, norm) && Refines(v0, i0, v, i, norm)
    ensures Subdivided(s + 1, v, i, g, norm)
  {
    hide Refines;
  }

  lemma Coarsest(g: real, norm: Vec3 -> Vec3)
    ensures Subdivided(0, BasePoints(g), Icosahedron.BaseIndices(), g, norm)
  {
  }

  function Levels(subdivisions: int): nat {
    if subdivisions < 0 then 0 else subdivisions
  }

  // One turn of the subdivision loop.
  method SubdivideStep(sub: Subdivider, ghost s: nat, indices: seq<nat>) returns (newIndices: seq<nat>)
    requires |sub.vertices| == 3 * Points(sub.vertices) && SphereMesh(s, Points(sub.vertices), indices)
    modifies sub
    ensures |sub.vertices| == 3 * Points(sub.vertices) && SphereMesh(s + 1, Points(sub.vertices), newIndices)
    ensures Refines(old(sub.vertices), indices, sub.vertices, newIndices, sub.norm)
  {
    hide SphereMesh, CacheOk, Extends, Subdivides, Refines;
    MeshIsProper(s, Points(sub.vertices), indices);
    newIndices := sub.SubdivideOnce(indices);
    RefinedBy(sub.midpointCache, old(sub.vertices), indices, sub.vertices, newIndices, sub.norm);
    CacheRoom(sub.midpointCache, Points(old(sub.vertices)), sub.vertices, sub.norm);
    NextMesh(s, Points(old(sub.vertices)), indices, sub.midpointCache, Points(sub.vertices), newIndices);
  }

  lemma SamePoint(a: seq<real>, b: seq<real>, n: nat, i: nat)
    requires |a| == |b| && 3 * n <= |a| && a[..3 * n] == b[..3 * n] && i < n
    ensures PointOf(a, i) == PointOf(b, i)
  {
    assert a[..3 * n][3 * i] == b[..3 * n][3 * i] && a[..3 * n][3 * i + 1] == b[..3 * n][3 * i + 1]
        && a[..3 * n][3 * i + 2] == b[..3 * n][3 * i + 2];
  }

  method PutPoint(result: array<real>, n: nat, vertices: seq<real>, center: Vec3, radius: real, norm: Vec3 -> Vec3)
    requires result.Length == |vertices| && n < Points(vertices)
    modifies result
    ensures result[..3 * n] == old(result[..3 * n])
    ensures PointOf(result[..], n) == Add(Scale(radius, norm(PointOf(vertices, n))), center)
  {
    var i := 3 * n;
    var unit := norm(Vec3(vertices[i], vertices[i + 1], vertices[i + 2]));
    result[i] := unit.x * radius + center.x;
    result[i + 1] := unit.y * radius + center.y;
    result[i + 2] := unit.z * radius + center.z;
  }

  method Place(vertices: seq<real>, center: Vec3, radius: real, norm: Vec3 -> Vec3) returns (result: array<real>)
    requires |vertices| == 3 * Points(vertices)
    ensures fresh(result) && result.Length == |vertices|
    ensures forall i :: 0 <= i < Points(vertices) ==>
              PointOf(result[..], i) == Add(Scale(radius, norm(PointOf(vertices, i))), center)
  {
    hide PointOf;
    result := new real[|vertices|](_ => 0.0);
    for n := 0 to |vertices| / 3
      invariant forall i :: 0 <= i < n ==>
                  PointOf(result[..], i) == Add(Scale(radius, norm(PointOf(vertices, i))), center)
    {
      ghost var before := result[..];
      PutPoint(result, n, vertices, center, radius, norm);
      forall i: nat | i < n
        ensures PointOf(result[..], i) == Add(Scale(radius, norm(PointOf(vertices, i))), center)
      {
        SamePoint(before, result[..], n, i);
      }
    }
  }

  method CreateSphere(center: Vec3, radius: real, subdivisions: int, g: real, norm: Vec3 -> Vec3)
    returns (result: array<real>, indices: seq<nat>, ghost points: seq<real>)
    ensures result.Length == 3 * Points(result[..]) && SphereMesh(Levels(subdivisions), Points(result[..]), indices)
    ensures Points(result[..]) - |UndirectedEdges(indices)| + Triangles(indices) == 2
    // the mesh comes from the base table by that many subdivisions
    ensures |points| == result.Length && Subdivided(Levels(subdivisions), points, indices, g, norm)
    // every point of the mesh is pushed to the radius and moved to the centre
    ensures forall i :: 0 <= i < Points(points) ==>
              PointOf(result[..], i) == Add(Scale(radius, norm(PointOf(points, i))), center)
    // so that all faces turn outward
    ensures Golden(g) && Radial(norm) && radius > 0.0 ==> OutwardFrom(center, result[..], indices)
  {
    hide SphereMesh, Subdivided, BasePoints, PointOf, Points, Pow4, Add, Scale, UndirectedEdges, Refines;
    hide Outward, OutwardFrom, Radial, Golden;
    var sub := new Subdivider(BasePoints(g), norm);
    indices := Icosahedron.BaseIndices();
    StartMesh();
    StartPoints(g);
    Coarsest(g, norm);
    var s := 0;
    while s < subdivisions
      invariant 0 <= s <= Levels(subdivisions)
      invariant |sub.vertices| == 3 * Points(sub.vertices) && sub.norm == norm
      invariant SphereMesh(s, Points(sub.vertices), indices)
      invariant Subdivided(s, sub.vertices, indices, g, norm)
    {
      ghost var before, coarse := sub.vertices, indices;
      indices := SubdivideStep(sub, s, indices);
      OnceMore(s, before, coarse, sub.vertices, indices, g, norm);
      s := s + 1;
    }
    points := sub.vertices;
    EulerCharacteristic(s, Points(points), indices);
    result := Place(sub.vertices, center, radius, norm);
    SamePoints(result[..], points);
    if Golden(g) && Radial(norm) && radius > 0.0 {
      SubdividedOutward(s, points, indices, g, norm);
      ResultOutward(points, indices, result[..], center, radius, norm);
    }
  }

  // If norm really normalises, every vertex of the result lies on the sphere.
  lemma OnTheSphere(center: Vec3, radius: real, unit: Vec3)
    requires Dot(unit, unit) == 1.0
    ensures var p := Sub(Add(Scale(radius, unit), center), center); Dot(p, p) == radius * radius
  {
    var p := Sub(Add(Scale(radius, unit), center), center);
    assert p == Scale(radius, unit);
    assert Dot(p, p) == radius * radius * Dot(unit, unit);
  }
}
