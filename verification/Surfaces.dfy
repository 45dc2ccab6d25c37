// One level of subdivision keeps a mesh in one piece and leaves no vertex over.
module Surfaces {
  import opened Meshes
  import opened Subdivision

  // ------------------------------------------------------------ every vertex is used

  ghost function Range(lo: nat, hi: nat): (r: set<nat>)
    requires lo <= hi
    ensures forall x :: x in r <==> lo <= x < hi
  {
    if lo == hi then {} else Range(lo, hi - 1) + {hi - 1}
  }

  lemma {:induction false} RangeSize(lo: nat, hi: nat)
    requires lo <= hi
    ensures |Range(lo, hi)| == hi - lo
    decreases hi
  {
    if lo < hi {
      RangeSize(lo, hi - 1);
    }
  }

  ghost function Images(mid: Midpoints, keys: set<Key>): set<nat>
    requires keys <= mid.Keys
  {
    set e | e in keys :: mid[e]
  }

  lemma {:induction false} ImagesSize(mid: Midpoints, keys: set<Key>)
    requires keys <= mid.Keys
    requires forall e, f :: e in mid && f in mid && mid[e] == mid[f] ==> e == f
    ensures |Images(mid, keys)| == |keys|
    decreases keys
  {
    if keys == {} {
      assert Images(mid, keys) == {};
    } else {
      var e :| e in keys;
      ImagesSize(mid, keys - {e});
      assert Images(mid, keys) == Images(mid, keys - {e}) + {mid[e]};
      assert mid[e] !in Images(mid, keys - {e});
    }
  }

  lemma {:induction false} FullSubset(a: set<nat>, b: set<nat>)
    requires a <= b && |a| == |b|
    ensures a == b
  {
    assert |b - a| == |b| - |a|;
  }

  // The midpoints fill the new numbers, each once.
  lemma NumbersFill(mid: Midpoints, idx: seq<nat>, vertices: nat, vertices': nat, v: nat) returns (e: Key)
    requires Numbers(mid, idx, vertices, vertices') && vertices <= v < vertices'
    ensures e in mid && mid[e] == v
  {
    RangeSize(vertices, vertices');
    ImagesSize(mid, mid.Keys);
    assert |mid| == |mid.Keys|;
    FullSubset(Images(mid, mid.Keys), Range(vertices, vertices'));
    assert v in Images(mid, mid.Keys);
    e :| e in mid && mid[e] == v;
  }

  lemma EdgeOfKey(mid: Midpoints, idx: seq<nat>, vertices: nat, vertices': nat, e: Key) returns (t: nat, k: Slot)
    requires Numbers(mid, idx, vertices, vertices') && e in mid
    ensures t < Triangles(idx) && EdgeKey(idx, t, k) == e
  {
    assert e in UndirectedEdges(idx);
    t, k :| 0 <= t < Triangles(idx) && e == EdgeKey(idx, t, k);
  }

  lemma MidIs(idx: seq<nat>, mid: Midpoints, t: nat, k: Slot, e: Key)
    requires t < Triangles(idx) && EdgeKey(idx, t, k) == e && e in mid
    ensures Mid(idx, mid, t, k) == mid[e]
  {
  }

  lemma SpanningKept(idx: seq<nat>, idx': seq<nat>, mid: Midpoints, vertices: nat, vertices': nat)
    requires Level(idx, idx', mid, vertices, vertices') && Spanning(vertices, idx)
    ensures Spanning(vertices', idx')
  {
    hide Level, Org, Dst, Manifold, Numbers, From, To, Mid;
    LevelFacts(idx, idx', mid, vertices, vertices');
    forall v: nat | v < vertices'
      ensures Used(idx', v)
    {
      if v < vertices {
        assert Used(idx, v);
        var t, k: Slot :| 0 <= t < Triangles(idx) && Org(idx, t, k) == v;
        Ends(idx, idx', mid, vertices, vertices', First, t, k);
        FromIs(idx, mid, First, t, k);
      } else {
        var e := NumbersFill(mid, idx, vertices, vertices', v);
        var t, k := EdgeOfKey(mid, idx, vertices, vertices', e);
        Ends(idx, idx', mid, vertices, vertices', Second, t, k);
        FromIs(idx, mid, Second, t, k);
        MidIs(idx, mid, t, k, e);
      }
    }
  }

  // ----------------------------------------------------------------- in one piece

  // Each quarter of a triangle is joined to its centre.
  lemma ToCentre(idx: seq<nat>, idx': seq<nat>, mid: Midpoints, vertices: nat, vertices': nat, t: nat, q: nat)
    requires Level(idx, idx', mid, vertices, vertices') && t < Triangles(idx) && q < 4
    ensures 4 * t + q < Triangles(idx') && 4 * t + 3 < Triangles(idx')
    ensures Joined(idx', 4 * t + q, 4 * t + 3)
  {
    hide Level, Org, Dst, Manifold, Opposite;
    LevelFacts(idx, idx', mid, vertices, vertices');
    if q < 3 {
      var p, u, l := PlaceTwin(idx, idx', mid, vertices, vertices', Corner, t, q);
      OneStep(idx', 4 * t + q, 1, 4 * t + 3, Pred(q));
    } else {
      assert Walk(idx', 4 * t + 3, 0, 4 * t + 3);
    }
  }

  lemma JoinedBy(idx: seq<nat>, t: nat, u: nat)
    requires t < Triangles(idx) && Walk(idx, t, 1, u)
    ensures Joined(idx, t, u)
  {
  }

  lemma CentresJoined(idx: seq<nat>, idx': seq<nat>, mid: Midpoints, vertices: nat, vertices': nat,
                      t: nat, k: Slot, u: nat, l: Slot)
    requires Level(idx, idx', mid, vertices, vertices') && t < Triangles(idx) && u < Triangles(idx)
    requires Opposite(idx, t, k, u, l)
    ensures 4 * t + 3 < Triangles(idx') && 4 * u + 3 < Triangles(idx')
    ensures Joined(idx', 4 * t + 3, 4 * u + 3)
  {
    hide Level, Org, Dst, Manifold, Opposite, Joined, Walk;
    LevelFacts(idx, idx', mid, vertices, vertices');
    ManifoldOriented(vertices, idx);
    ToCentre(idx, idx', mid, vertices, vertices', t, k);
    ToCentre(idx, idx', mid, vertices, vertices', u, Succ(l));
    JoinedBack(idx', 4 * t + k, 4 * t + 3);
    var q, u', l' := PlaceTwin(idx, idx', mid, vertices, vertices', First, t, k);
    OppositeUnique(idx, t, k, u, l, u', l');
    OneStep(idx', 4 * t + k, 0, 4 * u + Succ(l), 2);
    JoinedBy(idx', 4 * t + k, 4 * u + Succ(l));
    JoinedOn(idx', 4 * t + 3, 4 * t + k, 4 * u + Succ(l));
    JoinedOn(idx', 4 * t + 3, 4 * u + Succ(l), 4 * u + 3);
  }

  lemma {:induction false} WalkKept(idx: seq<nat>, idx': seq<nat>, mid: Midpoints, vertices: nat, vertices': nat,
                                    t: nat, n: nat, u: nat)
    requires Level(idx, idx', mid, vertices, vertices') && t < Triangles(idx) && u < Triangles(idx)
    requires Walk(idx, t, n, u)
    ensures 4 * t + 3 < Triangles(idx') && 4 * u + 3 < Triangles(idx')
    ensures Joined(idx', 4 * t + 3, 4 * u + 3)
    decreases n
  {
    hide Level, Manifold, Opposite;
    LevelFacts(idx, idx', mid, vertices, vertices');
    if n == 0 {
      assert Walk(idx', 4 * t + 3, 0, 4 * t + 3);
    } else {
      var k: Slot, t', k': Slot :| 0 <= t' < Triangles(idx) && Opposite(idx, t, k, t', k') && Walk(idx, t', n - 1, u);
      WalkKept(idx, idx', mid, vertices, vertices', t', n - 1, u);
      CentresJoined(idx, idx', mid, vertices, vertices', t, k, t', k');
      JoinedOn(idx', 4 * t + 3, 4 * t' + 3, 4 * u + 3);
    }
  }

  lemma ConnectedKept(idx: seq<nat>, idx': seq<nat>, mid: Midpoints, vertices: nat, vertices': nat)
    requires Level(idx, idx', mid, vertices, vertices') && Connected(idx)
    ensures Connected(idx')
  {
    hide Level, Manifold, Walk;
    LevelFacts(idx, idx', mid, vertices, vertices');
    forall T, U | 0 <= T < Triangles(idx') && 0 <= U < Triangles(idx')
      ensures Joined(idx', T, U)
    {
      var t, u := T / 4, U / 4;
      assert Joined(idx, t, u);
      var n: nat :| Walk(idx, t, n, u);
      WalkKept(idx, idx', mid, vertices, vertices', t, n, u);
      ToCentre(idx, idx', mid, vertices, vertices', t, T % 4);
      ToCentre(idx, idx', mid, vertices, vertices', u, U % 4);
      JoinedBack(idx', U, 4 * u + 3);
      JoinedOn(idx', T, 4 * t + 3, 4 * u + 3);
      JoinedOn(idx', T, 4 * u + 3, U);
    }
  }
}
