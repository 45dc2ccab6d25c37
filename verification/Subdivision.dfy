// One level of subdivision, and why it keeps a closed oriented mesh closed and oriented.
module Subdivision {
  import opened Meshes

  type Midpoints = map<Key, nat>

  // The midpoint vertex of edge (t, k).
  function Mid(idx: seq<nat>, mid: Midpoints, t: nat, k: Slot): nat
    requires t < Triangles(idx) && EdgeKey(idx, t, k) in mid
  {
    mid[EdgeKey(idx, t, k)]
  }

  ghost predicate HasKeys(idx: seq<nat>, mid: Midpoints, t: nat)
    requires t < Triangles(idx)
  {
    forall k: Slot :: EdgeKey(idx, t, k) in mid
  }

  // The twelve new indices of triangle t: three corner triangles and the centre one.
  function Block(idx: seq<nat>, mid: Midpoints, t: nat): (s: seq<nat>)
    requires t < Triangles(idx) && HasKeys(idx, mid, t)
    ensures |s| == 12
  {
    var a, b, c := Org(idx, t, 0), Org(idx, t, 1), Org(idx, t, 2);
    var ab, bc, ca := Mid(idx, mid, t, 0), Mid(idx, mid, t, 1), Mid(idx, mid, t, 2);
    [a, ab, ca, b, bc, ab, c, ca, bc, ab, bc, ca]
  }

  // mid numbers the undirected edges of idx by the new vertices, one each.
  ghost predicate Numbers(mid: Midpoints, idx: seq<nat>, vertices: nat, vertices': nat) {
    && mid.Keys == UndirectedEdges(idx)
    && vertices' == vertices + |mid|
    && (forall e :: e in mid ==> vertices <= mid[e] < vertices')
    && (forall e, f :: e in mid && f in mid && mid[e] == mid[f] ==> e == f)
  }

  lemma EveryEdgeNumbered(mid: Midpoints, idx: seq<nat>, vertices: nat, vertices': nat, t: nat, k: Slot)
    requires Numbers(mid, idx, vertices, vertices') && t < Triangles(idx)
    ensures EdgeKey(idx, t, k) in mid && vertices <= Mid(idx, mid, t, k) < vertices'
  {
    assert EdgeKey(idx, t, k) in UndirectedEdges(idx);
  }

  ghost predicate BlockDone(idx: seq<nat>, out: seq<nat>, mid: Midpoints, t: nat)
    requires t < Triangles(idx)
  {
    HasKeys(idx, mid, t) && 12 * t + 12 <= |out| && out[12 * t..12 * t + 12] == Block(idx, mid, t)
  }

  ghost predicate Subdivides(idx: seq<nat>, idx': seq<nat>, mid: Midpoints, vertices: nat, vertices': nat) {
    && Numbers(mid, idx, vertices, vertices')
    && |idx'| == 4 * |idx|
    && forall t :: 0 <= t < Triangles(idx) ==> BlockDone(idx, idx', mid, t)
  }

  // ------------------------------------------------ the new edges, by where they lie

  // First and Second are the halves of an old edge; Corner cuts off the corner at the
  // edge's origin; Centre is the side of the middle triangle that leaves the edge's midpoint.
  datatype Place = First | Second | Corner | Centre

  function TriOf(p: Place, t: nat, k: Slot): nat {
    match p
    case First => 4 * t + k
    case Second => 4 * t + Succ(k)
    case Corner => 4 * t + k
    case Centre => 4 * t + 3
  }

  function SlotOf(p: Place, k: Slot): Slot {
    match p
    case First => 0
    case Second => 2
    case Corner => 1
    case Centre => k
  }

  ghost predicate EdgeIs(idx': seq<nat>, T: nat, K: Slot, from: nat, to: nat)
    requires T < Triangles(idx')
  {
    Org(idx', T, K) == from && Dst(idx', T, K) == to
  }

  lemma BlockIndices(idx: seq<nat>, idx': seq<nat>, mid: Midpoints, vertices: nat, vertices': nat, t: nat, q: nat,
                     l: Slot)
    requires |idx| == 3 * Triangles(idx) && Subdivides(idx, idx', mid, vertices, vertices')
    requires t < Triangles(idx) && q < 4
    ensures 4 * t + q < Triangles(idx')
    ensures HasKeys(idx, mid, t)
    ensures Org(idx', 4 * t + q, l) == Block(idx, mid, t)[3 * q + l]
  {
    assert BlockDone(idx, idx', mid, t);
    assert idx'[12 * t..12 * t + 12][3 * q + l] == idx'[12 * t + (3 * q + l)];
  }

  // Where each new edge runs.
  lemma NewEdge(idx: seq<nat>, idx': seq<nat>, mid: Midpoints, vertices: nat, vertices': nat, p: Place, t: nat, k: Slot)
    requires |idx| == 3 * Triangles(idx) && Subdivides(idx, idx', mid, vertices, vertices') && t < Triangles(idx)
    ensures TriOf(p, t, k) < Triangles(idx')
    ensures HasKeys(idx, mid, t)
    ensures var m := Mid(idx, mid, t, k);
            match p
            case First => EdgeIs(idx', TriOf(p, t, k), SlotOf(p, k), Org(idx, t, k), m)
            case Second => EdgeIs(idx', TriOf(p, t, k), SlotOf(p, k), m, Dst(idx, t, k))
            case Corner => EdgeIs(idx', TriOf(p, t, k), SlotOf(p, k), m, Mid(idx, mid, t, Pred(k)))
            case Centre => EdgeIs(idx', TriOf(p, t, k), SlotOf(p, k), m, Mid(idx, mid, t, Succ(k)))
  {
    hide Subdivides;
    var q := if p.Second? then Succ(k) else if p.Centre? then 3 else k;
    var l := SlotOf(p, k);
    BlockIndices(idx, idx', mid, vertices, vertices', t, q, l);
    BlockIndices(idx, idx', mid, vertices, vertices', t, q, Succ(l));
  }

  // Every edge of the new mesh is one of those.
  lemma WhichPlace(idx: seq<nat>, idx': seq<nat>, T: nat, K: Slot) returns (p: Place, t: nat, k: Slot)
    requires |idx| == 3 * Triangles(idx) && |idx'| == 4 * |idx| && T < Triangles(idx')
    ensures t < Triangles(idx) && TriOf(p, t, k) == T && SlotOf(p, k) == K
  {
    t := T / 4;
    var q := T % 4;
    if q == 3 {
      p, k := Centre, K;
    } else if K == 0 {
      p, k := First, q;
    } else if K == 1 {
      p, k := Corner, q;
    } else {
      p, k := Second, Pred(q);
    }
  }

  lemma SameMid(idx: seq<nat>, mid: Midpoints, vertices: nat, vertices': nat, t: nat, k: Slot, u: nat, l: Slot)
    requires Numbers(mid, idx, vertices, vertices') && t < Triangles(idx) && u < Triangles(idx)
    requires EdgeKey(idx, t, k) in mid && EdgeKey(idx, u, l) in mid
    ensures Mid(idx, mid, t, k) == Mid(idx, mid, u, l) <==>
            SameEdge(idx, t, k, u, l) || Opposite(idx, t, k, u, l)
  {
    SameKeyIsSameOrOpposite(idx, t, k, u, l);
  }

  // ------------------------------------------------------------------- orientation

  // No triangle has an edge and its reverse.
  lemma ThreeCorners(vertices: nat, idx: seq<nat>, t: nat)
    requires Proper(vertices, idx) && t < Triangles(idx)
    ensures Org(idx, t, 0) != Org(idx, t, 1) && Org(idx, t, 1) != Org(idx, t, 2) && Org(idx, t, 2) != Org(idx, t, 0)
  {
    assert Dst(idx, t, 0) == Org(idx, t, 1) && Dst(idx, t, 1) == Org(idx, t, 2) && Dst(idx, t, 2) == Org(idx, t, 0);
  }

  lemma NotOppositeItself(vertices: nat, idx: seq<nat>, t: nat, k: Slot, l: Slot)
    requires Proper(vertices, idx) && t < Triangles(idx)
    ensures !Opposite(idx, t, k, t, l)
  {
    ThreeCorners(vertices, idx, t);
    hide Org, Proper, Triangles;
  }

  // Two corner pieces cut off from the same two edges come from the same corner.
  lemma SamePair(idx: seq<nat>, vertices: nat, t: nat, k: Slot, k': Slot, u: nat, l: Slot, l': Slot)
    requires Manifold(vertices, idx) && t < Triangles(idx) && u < Triangles(idx) && k != k' && l != l'
    requires SameEdge(idx, t, k, u, l) || Opposite(idx, t, k, u, l)
    requires SameEdge(idx, t, k', u, l') || Opposite(idx, t, k', u, l')
    ensures t == u && k == l && k' == l'
  {
    NotOppositeItself(vertices, idx, t, k, l);
    NotOppositeItself(vertices, idx, t, k', l');
  }

  // ------------------------------------------------------------- one whole level

  ghost predicate Level(idx: seq<nat>, idx': seq<nat>, mid: Midpoints, vertices: nat, vertices': nat) {
    Manifold(vertices, idx) && Subdivides(idx, idx', mid, vertices, vertices')
  }

  lemma SubdividesFacts(idx: seq<nat>, idx': seq<nat>, mid: Midpoints, vertices: nat, vertices': nat)
    requires Subdivides(idx, idx', mid, vertices, vertices')
    ensures |idx'| == 4 * |idx| && Numbers(mid, idx, vertices, vertices')
  {
    hide Numbers;
  }

  lemma Thirds(n: nat, m: nat)
    requires n == 3 * (n / 3) && m == 4 * n
    ensures m == 3 * (m / 3)
  {
  }

  lemma Length(vertices: nat, idx: seq<nat>)
    requires Proper(vertices, idx)
    ensures |idx| == 3 * Triangles(idx)
  {
  }

  lemma LevelFacts(idx: seq<nat>, idx': seq<nat>, mid: Midpoints, vertices: nat, vertices': nat)
    requires Level(idx, idx', mid, vertices, vertices')
    ensures |idx| == 3 * Triangles(idx) && |idx'| == 3 * Triangles(idx') && |idx'| == 4 * |idx|
    ensures Manifold(vertices, idx) && Proper(vertices, idx) && Numbers(mid, idx, vertices, vertices')
  {
    hide Proper, Oriented, Closed, Simplicial, OneFan, Subdivides, Numbers;
    Length(vertices, idx);
    SubdividesFacts(idx, idx', mid, vertices, vertices');
    Thirds(|idx|, |idx'|);
  }

  // The ends of new edge p at (t, k), as numbers.
  function From(idx: seq<nat>, mid: Midpoints, p: Place, t: nat, k: Slot): nat
    requires t < Triangles(idx) && HasKeys(idx, mid, t)
  {
    if p.First? then Org(idx, t, k) else Mid(idx, mid, t, k)
  }

  function To(idx: seq<nat>, mid: Midpoints, p: Place, t: nat, k: Slot): nat
    requires t < Triangles(idx) && HasKeys(idx, mid, t)
  {
    match p
    case First => Mid(idx, mid, t, k)
    case Second => Dst(idx, t, k)
    case Corner => Mid(idx, mid, t, Pred(k))
    case Centre => Mid(idx, mid, t, Succ(k))
  }

  ghost predicate At(idx: seq<nat>, idx': seq<nat>, p: Place, t: nat, k: Slot, T: nat, K: Slot) {
    t < Triangles(idx) && T < Triangles(idx') && T == TriOf(p, t, k) && K == SlotOf(p, k)
  }

  lemma Ends(idx: seq<nat>, idx': seq<nat>, mid: Midpoints, vertices: nat, vertices': nat, p: Place, t: nat, k: Slot)
    requires Level(idx, idx', mid, vertices, vertices') && t < Triangles(idx)
    ensures HasKeys(idx, mid, t)
    ensures TriOf(p, t, k) < Triangles(idx')
    ensures Org(idx', TriOf(p, t, k), SlotOf(p, k)) == From(idx, mid, p, t, k)
    ensures Dst(idx', TriOf(p, t, k), SlotOf(p, k)) == To(idx, mid, p, t, k)
  {
    hide Mid, Org, Dst, Subdivides;
    NewEdge(idx, idx', mid, vertices, vertices', p, t, k);
  }

  lemma CornerBelow(vertices: nat, idx: seq<nat>, t: nat, k: Slot)
    requires Proper(vertices, idx) && t < Triangles(idx)
    ensures Org(idx, t, k) < vertices
  {
    hide Triangles;
  }

  lemma MoreNumbers(mid: Midpoints, idx: seq<nat>, vertices: nat, vertices': nat)
    requires Numbers(mid, idx, vertices, vertices')
    ensures vertices <= vertices'
  {
  }

  // Old vertices stay below, midpoints lie above.
  lemma EndsRange(idx: seq<nat>, mid: Midpoints, vertices: nat, vertices': nat, p: Place, t: nat, k: Slot)
    requires Proper(vertices, idx) && Numbers(mid, idx, vertices, vertices') && t < Triangles(idx)
    requires HasKeys(idx, mid, t)
    ensures From(idx, mid, p, t, k) < vertices <==> p.First?
    ensures To(idx, mid, p, t, k) < vertices <==> p.Second?
    ensures From(idx, mid, p, t, k) < vertices' && To(idx, mid, p, t, k) < vertices'
  {
    hide Org, Mid, EdgeKey, Proper, Triangles, Numbers, HasKeys;
    CornerBelow(vertices, idx, t, k);
    CornerBelow(vertices, idx, t, Succ(k));
    EveryEdgeNumbered(mid, idx, vertices, vertices', t, k);
    EveryEdgeNumbered(mid, idx, vertices, vertices', t, Succ(k));
    EveryEdgeNumbered(mid, idx, vertices, vertices', t, Pred(k));
    MoreNumbers(mid, idx, vertices, vertices');
  }

  // An edge is known by its ends.
  lemma EndsDetermine(idx: seq<nat>, mid: Midpoints, vertices: nat, vertices': nat,
                      p: Place, t: nat, k: Slot, q: Place, u: nat, l: Slot)
    requires Manifold(vertices, idx) && Numbers(mid, idx, vertices, vertices')
    requires t < Triangles(idx) && u < Triangles(idx)
    requires HasKeys(idx, mid, t) && HasKeys(idx, mid, u)
    requires From(idx, mid, p, t, k) == From(idx, mid, q, u, l) && To(idx, mid, p, t, k) == To(idx, mid, q, u, l)
    ensures p == q && t == u && k == l
  {
    hide Mid, Numbers, OneFan;
    EndsRange(idx, mid, vertices, vertices', p, t, k);
    EndsRange(idx, mid, vertices, vertices', q, u, l);
    SameMid(idx, mid, vertices, vertices', t, k, u, l);
    if p.First? {
      assert !Opposite(idx, t, k, u, l) by { assert Org(idx, u, l) != Dst(idx, u, l); }
    } else if p.Second? {
      assert !Opposite(idx, t, k, u, l) by { assert Org(idx, t, k) != Dst(idx, t, k); }
    } else {
      var k' := if p.Corner? then Pred(k) else Succ(k);
      var l' := if q.Corner? then Pred(l) else Succ(l);
      SameMid(idx, mid, vertices, vertices', t, k', u, l');
      hide Org, Dst;
      SamePair(idx, vertices, t, k, k', u, l, l');
    }
  }

  lemma OrientedKept(idx: seq<nat>, idx': seq<nat>, mid: Midpoints, vertices: nat, vertices': nat)
    requires Level(idx, idx', mid, vertices, vertices')
    ensures Oriented(idx')
  {
    hide Org, Dst, From, To, Manifold, Numbers, Level, Proper;
    LevelFacts(idx, idx', mid, vertices, vertices');
    forall T, K: Slot, U, L: Slot | 0 <= T < Triangles(idx') && 0 <= U < Triangles(idx') && SameEdge(idx', T, K, U, L)
      ensures T == U && K == L
    {
      var p, t, k := WhichPlace(idx, idx', T, K);
      var q, u, l := WhichPlace(idx, idx', U, L);
      Ends(idx, idx', mid, vertices, vertices', p, t, k);
      Ends(idx, idx', mid, vertices, vertices', q, u, l);
      EndsDetermine(idx, mid, vertices, vertices', p, t, k, q, u, l);
    }
  }

  lemma EndsDiffer(idx: seq<nat>, mid: Midpoints, vertices: nat, vertices': nat, p: Place, t: nat, k: Slot)
    requires Manifold(vertices, idx) && Numbers(mid, idx, vertices, vertices') && t < Triangles(idx)
    requires HasKeys(idx, mid, t)
    ensures From(idx, mid, p, t, k) != To(idx, mid, p, t, k)
  {
    hide Mid, Numbers, OneFan;
    EndsRange(idx, mid, vertices, vertices', p, t, k);
    if p.Corner? || p.Centre? {
      var k' := if p.Corner? then Pred(k) else Succ(k);
      SameMid(idx, mid, vertices, vertices', t, k, t, k');
      NotOppositeItself(vertices, idx, t, k, k');
    }
  }

  lemma ProperKept(idx: seq<nat>, idx': seq<nat>, mid: Midpoints, vertices: nat, vertices': nat)
    requires Level(idx, idx', mid, vertices, vertices')
    ensures Proper(vertices', idx')
  {
    hide Org, Dst, From, To, Manifold, Numbers, Level;
    LevelFacts(idx, idx', mid, vertices, vertices');
    forall T, K: Slot | 0 <= T < Triangles(idx')
      ensures Org(idx', T, K) < vertices' && Org(idx', T, K) != Dst(idx', T, K)
    {
      var p, t, k := WhichPlace(idx, idx', T, K);
      Ends(idx, idx', mid, vertices, vertices', p, t, k);
      EndsRange(idx, mid, vertices, vertices', p, t, k);
      EndsDiffer(idx, mid, vertices, vertices', p, t, k);
    }
  }

  // The neighbour across each new edge.
  lemma PlaceTwin(idx: seq<nat>, idx': seq<nat>, mid: Midpoints, vertices: nat, vertices': nat, p: Place, t: nat,
                  k: Slot)
    returns (q: Place, u: nat, l: Slot)
    requires Level(idx, idx', mid, vertices, vertices') && t < Triangles(idx)
    ensures u < Triangles(idx) && TriOf(p, t, k) < Triangles(idx') && TriOf(q, u, l) < Triangles(idx')
    ensures Opposite(idx', TriOf(p, t, k), SlotOf(p, k), TriOf(q, u, l), SlotOf(q, l))
    ensures match p
            case First => q == Second && Opposite(idx, t, k, u, l)
            case Second => q == First && Opposite(idx, t, k, u, l)
            case Corner => q == Centre && u == t && l == Pred(k)
            case Centre => q == Corner && u == t && l == Succ(k)
  {
    hide Numbers, Subdivides, Level, Mid, OneFan;
    LevelFacts(idx, idx', mid, vertices, vertices');
    u, l := Twin(idx, t, k);
    match p {
      case First => q := Second;
      case Second => q := First;
      case Corner => q, u, l := Centre, t, Pred(k);
      case Centre => q, u, l := Corner, t, Succ(k);
    }
    Ends(idx, idx', mid, vertices, vertices', p, t, k);
    Ends(idx, idx', mid, vertices, vertices', q, u, l);
    if p.First? || p.Second? {
      SameMid(idx, mid, vertices, vertices', t, k, u, l);
    }
  }

  lemma ClosedKept(idx: seq<nat>, idx': seq<nat>, mid: Midpoints, vertices: nat, vertices': nat)
    requires Level(idx, idx', mid, vertices, vertices')
    ensures Closed(idx')
  {
    hide Org, Dst, Manifold, Numbers, Opposite, Level;
    LevelFacts(idx, idx', mid, vertices, vertices');
    forall T, K: Slot | 0 <= T < Triangles(idx')
      ensures HasTwin(idx', T, K)
    {
      var p, t, k := WhichPlace(idx, idx', T, K);
      var q, u, l := PlaceTwin(idx, idx', mid, vertices, vertices', p, t, k);
      assert Opposite(idx', T, K, TriOf(q, u, l), SlotOf(q, l));
    }
  }

  // In an oriented mesh there is only one reverse.
  lemma OppositeUnique(idx: seq<nat>, t: nat, k: Slot, u: nat, l: Slot, u': nat, l': Slot)
    requires Oriented(idx) && t < Triangles(idx) && u < Triangles(idx) && u' < Triangles(idx)
    requires Opposite(idx, t, k, u, l) && Opposite(idx, t, k, u', l')
    ensures u == u' && l == l'
  {
    assert SameEdge(idx, u, l, u', l');
  }

  lemma NotTwiceAdjacent(idx: seq<nat>, idx': seq<nat>, mid: Midpoints, vertices: nat, vertices': nat,
                         T: nat, K: Slot, K': Slot, U: nat, L: Slot, L': Slot)
    requires Level(idx, idx', mid, vertices, vertices') && Oriented(idx')
    requires T < Triangles(idx') && U < Triangles(idx')
    requires Opposite(idx', T, K, U, L) && Opposite(idx', T, K', U, L')
    ensures K == K'
  {
    hide Org, Dst, Opposite, Numbers, SameEdge;
    var p, t, k := WhichPlace(idx, idx', T, K);
    var p', t', k' := WhichPlace(idx, idx', T, K');
    var q, u, l := PlaceTwin(idx, idx', mid, vertices, vertices', p, t, k);
    var q', u', l' := PlaceTwin(idx, idx', mid, vertices, vertices', p', t', k');
    OppositeUnique(idx', T, K, U, L, TriOf(q, u, l), SlotOf(q, l));
    OppositeUnique(idx', T, K', U, L', TriOf(q', u', l'), SlotOf(q', l'));
    assert t == t' == T / 4 && u == u' == U / 4;
  }

  lemma SimplicialKept(idx: seq<nat>, idx': seq<nat>, mid: Midpoints, vertices: nat, vertices': nat)
    requires Level(idx, idx', mid, vertices, vertices')
    ensures Simplicial(idx')
  {
    OrientedKept(idx, idx', mid, vertices, vertices');
    forall T, K: Slot, K': Slot, U, L: Slot, L': Slot |
        0 <= T < Triangles(idx') && 0 <= U < Triangles(idx')
        && Opposite(idx', T, K, U, L) && Opposite(idx', T, K', U, L')
      ensures K == K'
    {
      NotTwiceAdjacent(idx, idx', mid, vertices, vertices', T, K, K', U, L, L');
    }
  }

  // ----------------------------------------------------------- fans and connection

  lemma ManifoldOriented(vertices: nat, idx: seq<nat>)
    requires Manifold(vertices, idx)
    ensures Oriented(idx) && Closed(idx) && OneFan(idx)
  {
  }

  // Where one turn about the origin of a new edge leads.
  lemma NewTurn(idx: seq<nat>, idx': seq<nat>, mid: Midpoints, vertices: nat, vertices': nat,
                p: Place, t: nat, k: Slot, u: nat, l: Slot)
    requires Level(idx, idx', mid, vertices, vertices') && t < Triangles(idx) && u < Triangles(idx)
    requires Opposite(idx, t, k, u, l)
    ensures TriOf(p, t, k) < Triangles(idx')
    ensures match p
            case First => Turns(idx', TriOf(p, t, k), 0, 1, 4 * u + Succ(l), 0)
            case Second => Turns(idx', TriOf(p, t, k), 2, 1, 4 * u + l, 1)
            case Corner => Turns(idx', TriOf(p, t, k), 1, 1, 4 * t + 3, k)
            case Centre => Turns(idx', TriOf(p, t, k), k, 1, 4 * t + Succ(k), 2)
  {
    hide Level, Org, Dst, Turns, Opposite, Manifold;
    LevelFacts(idx, idx', mid, vertices, vertices');
    ManifoldOriented(vertices, idx);
    var q, u', l' := PlaceTwin(idx, idx', mid, vertices, vertices', p, t, k);
    if p.First? || p.Second? {
      OppositeUnique(idx, t, k, u, l, u', l');
    }
    OneTurn(idx', TriOf(p, t, k), SlotOf(p, k), TriOf(q, u', l'), SlotOf(q, l'));
  }

  // The fan of an old vertex turns in the new mesh as it did in the old one.
  lemma {:induction false} OldFan(idx: seq<nat>, idx': seq<nat>, mid: Midpoints, vertices: nat, vertices': nat,
                                  t: nat, k: Slot, n: nat, u: nat, l: Slot)
    requires Level(idx, idx', mid, vertices, vertices') && t < Triangles(idx) && u < Triangles(idx)
    requires Turns(idx, t, k, n, u, l)
    ensures 4 * t + k < Triangles(idx') && 4 * u + l < Triangles(idx')
    ensures Turns(idx', 4 * t + k, 0, n, 4 * u + l, 0)
    decreases n
  {
    hide Level, Opposite, Org, Dst, Manifold;
    LevelFacts(idx, idx', mid, vertices, vertices');
    if n > 0 {
      var t', k': Slot :|
        0 <= t' < Triangles(idx) && Opposite(idx, t, k, t', k') && Turns(idx, t', Succ(k'), n - 1, u, l);
      NewTurn(idx, idx', mid, vertices, vertices', First, t, k, t', k');
      OldFan(idx, idx', mid, vertices, vertices', t', Succ(k'), n - 1, u, l);
      TurnsOn(idx', 4 * t + k, 0, 1, 4 * t' + Succ(k'), 0, n - 1, 4 * u + l, 0);
    }
  }

  lemma OppositeSwap(idx: seq<nat>, t: nat, k: Slot, u: nat, l: Slot)
    requires t < Triangles(idx) && u < Triangles(idx) && Opposite(idx, t, k, u, l)
    ensures Opposite(idx, u, l, t, k)
  {
  }

  // Around the midpoint of an old edge there are six edges: three on either side of it.
  lemma AcrossMidpoint(idx: seq<nat>, idx': seq<nat>, mid: Midpoints, vertices: nat, vertices': nat,
                       t: nat, k: Slot, u: nat, l: Slot, q: Place)
    requires Level(idx, idx', mid, vertices, vertices') && t < Triangles(idx) && u < Triangles(idx)
    requires Opposite(idx, t, k, u, l) && !q.First?
    ensures 4 * t + Succ(k) < Triangles(idx') && TriOf(q, u, l) < Triangles(idx')
    ensures SameFan(idx', 4 * t + Succ(k), 2, TriOf(q, u, l), SlotOf(q, l))
  {
    hide Level, Opposite, Org, Dst, Turns, Manifold;
    assert Opposite(idx, u, l, t, k) by { OppositeSwap(idx, t, k, u, l); }
    LevelFacts(idx, idx', mid, vertices, vertices');
    NewTurn(idx, idx', mid, vertices, vertices', Second, t, k, u, l);
    NewTurn(idx, idx', mid, vertices, vertices', Corner, u, l, t, k);
    NewTurn(idx, idx', mid, vertices, vertices', Centre, u, l, t, k);
    TurnsOn(idx', 4 * t + Succ(k), 2, 1, 4 * u + l, 1, 1, 4 * u + 3, l);
    TurnsOn(idx', 4 * t + Succ(k), 2, 2, 4 * u + 3, l, 1, 4 * u + Succ(l), 2);
  }

  // From any of them to the second half of the edge on its own side.
  lemma ToSecond(idx: seq<nat>, idx': seq<nat>, mid: Midpoints, vertices: nat, vertices': nat,
                 p: Place, t: nat, k: Slot, u: nat, l: Slot)
    requires Level(idx, idx', mid, vertices, vertices') && t < Triangles(idx) && u < Triangles(idx)
    requires Opposite(idx, t, k, u, l) && !p.First?
    ensures TriOf(p, t, k) < Triangles(idx') && 4 * t + Succ(k) < Triangles(idx')
    ensures SameFan(idx', TriOf(p, t, k), SlotOf(p, k), 4 * t + Succ(k), 2)
  {
    hide Level, Opposite, Org, Dst, Manifold;
    LevelFacts(idx, idx', mid, vertices, vertices');
    NewTurn(idx, idx', mid, vertices, vertices', Corner, t, k, u, l);
    NewTurn(idx, idx', mid, vertices, vertices', Centre, t, k, u, l);
    assert Turns(idx', 4 * t + Succ(k), 2, 0, 4 * t + Succ(k), 2);
    if p.Corner? {
      TurnsOn(idx', 4 * t + k, 1, 1, 4 * t + 3, k, 1, 4 * t + Succ(k), 2);
    }
  }

  lemma SameFanOn(idx: seq<nat>, t: nat, k: Slot, u: nat, l: Slot, w: nat, j: Slot)
    requires t < Triangles(idx) && u < Triangles(idx) && SameFan(idx, t, k, u, l) && SameFan(idx, u, l, w, j)
    ensures SameFan(idx, t, k, w, j)
  {
    hide Turns;
    var n: nat :| Turns(idx, t, k, n, u, l);
    var m: nat :| Turns(idx, u, l, m, w, j);
    TurnsOn(idx, t, k, n, u, l, m, w, j);
  }

  lemma MidpointFan(idx: seq<nat>, idx': seq<nat>, mid: Midpoints, vertices: nat, vertices': nat,
                    p: Place, t: nat, k: Slot, q: Place, u: nat, l: Slot)
    requires Level(idx, idx', mid, vertices, vertices') && t < Triangles(idx) && u < Triangles(idx)
    requires !p.First? && !q.First? && ((t == u && k == l) || Opposite(idx, t, k, u, l))
    ensures TriOf(p, t, k) < Triangles(idx')
    ensures SameFan(idx', TriOf(p, t, k), SlotOf(p, k), TriOf(q, u, l), SlotOf(q, l))
  {
    hide Level, Opposite, Org, Dst, SameFan, Manifold;
    LevelFacts(idx, idx', mid, vertices, vertices');
    ManifoldOriented(vertices, idx);
    var v, m := Twin(idx, t, k);
    OppositeSwap(idx, t, k, v, m);
    ToSecond(idx, idx', mid, vertices, vertices', p, t, k, v, m);
    if t == u && k == l {
      AcrossMidpoint(idx, idx', mid, vertices, vertices', t, k, v, m, Second);
      AcrossMidpoint(idx, idx', mid, vertices, vertices', v, m, t, k, q);
      SameFanOn(idx', TriOf(p, t, k), SlotOf(p, k), 4 * t + Succ(k), 2, 4 * v + Succ(m), 2);
      SameFanOn(idx', TriOf(p, t, k), SlotOf(p, k), 4 * v + Succ(m), 2, TriOf(q, u, l), SlotOf(q, l));
    } else {
      AcrossMidpoint(idx, idx', mid, vertices, vertices', t, k, u, l, q);
      SameFanOn(idx', TriOf(p, t, k), SlotOf(p, k), 4 * t + Succ(k), 2, TriOf(q, u, l), SlotOf(q, l));
    }
  }

  lemma OldVertexFan(idx: seq<nat>, idx': seq<nat>, mid: Midpoints, vertices: nat, vertices': nat,
                     t: nat, k: Slot, u: nat, l: Slot)
    requires Level(idx, idx', mid, vertices, vertices') && t < Triangles(idx) && u < Triangles(idx)
    requires Org(idx, t, k) == Org(idx, u, l)
    ensures 4 * t + k < Triangles(idx')
    ensures SameFan(idx', 4 * t + k, 0, 4 * u + l, 0)
  {
    hide Level, Org, Dst, Turns, Manifold;
    LevelFacts(idx, idx', mid, vertices, vertices');
    ManifoldOriented(vertices, idx);
    assert SameFan(idx, t, k, u, l);
    var n: nat :| Turns(idx, t, k, n, u, l);
    OldFan(idx, idx', mid, vertices, vertices', t, k, n, u, l);
  }

  lemma FromIs(idx: seq<nat>, mid: Midpoints, p: Place, t: nat, k: Slot)
    requires t < Triangles(idx) && HasKeys(idx, mid, t)
    ensures p.First? ==> From(idx, mid, p, t, k) == Org(idx, t, k)
    ensures !p.First? ==> EdgeKey(idx, t, k) in mid && From(idx, mid, p, t, k) == Mid(idx, mid, t, k)
  {
  }

  lemma OneFanKept(idx: seq<nat>, idx': seq<nat>, mid: Midpoints, vertices: nat, vertices': nat)
    requires Level(idx, idx', mid, vertices, vertices')
    ensures OneFan(idx')
  {
    hide Org, Dst, From, Mid, Manifold, Numbers, Level, Proper, SameFan, Opposite, SameEdge;
    LevelFacts(idx, idx', mid, vertices, vertices');
    ManifoldOriented(vertices, idx);
    forall T, K: Slot, U, L: Slot {:trigger Org(idx', T, K), Org(idx', U, L)} |
        0 <= T < Triangles(idx') && 0 <= U < Triangles(idx') && Org(idx', T, K) == Org(idx', U, L)
      ensures SameFan(idx', T, K, U, L)
    {
      var p, t, k := WhichPlace(idx, idx', T, K);
      var q, u, l := WhichPlace(idx, idx', U, L);
      Ends(idx, idx', mid, vertices, vertices', p, t, k);
      Ends(idx, idx', mid, vertices, vertices', q, u, l);
      EndsRange(idx, mid, vertices, vertices', p, t, k);
      EndsRange(idx, mid, vertices, vertices', q, u, l);
      FromIs(idx, mid, p, t, k);
      FromIs(idx, mid, q, u, l);
      if p.First? {
        OldVertexFan(idx, idx', mid, vertices, vertices', t, k, u, l);
      } else {
        SameMid(idx, mid, vertices, vertices', t, k, u, l);
        MidpointFan(idx, idx', mid, vertices, vertices', p, t, k, q, u, l);
      }
    }
  }

  // A closed, consistently oriented mesh without doubled faces, with one fan around each
  // vertex, stays one.
  lemma ManifoldKept(idx: seq<nat>, idx': seq<nat>, mid: Midpoints, vertices: nat, vertices': nat)
    requires Level(idx, idx', mid, vertices, vertices')
    ensures Manifold(vertices', idx')
  {
    hide Proper, Oriented, Closed, Simplicial, OneFan, Level, Subdivides;
    OneFanKept(idx, idx', mid, vertices, vertices');
    ProperKept(idx, idx', mid, vertices, vertices');
    OrientedKept(idx, idx', mid, vertices, vertices');
    ClosedKept(idx, idx', mid, vertices, vertices');
    SimplicialKept(idx, idx', mid, vertices, vertices');
  }

  // Four times the triangles, and one new vertex for each undirected edge.
  lemma LevelCounts(idx: seq<nat>, idx': seq<nat>, mid: Midpoints, vertices: nat, vertices': nat)
    requires Level(idx, idx', mid, vertices, vertices')
    ensures Triangles(idx') == 4 * Triangles(idx)
    ensures 2 * (vertices' - vertices) == 3 * Triangles(idx)
    ensures |UndirectedEdges(idx')| == 4 * |UndirectedEdges(idx)|
  {
    UndirectedCount(vertices, idx);
    ManifoldKept(idx, idx', mid, vertices, vertices');
    UndirectedCount(vertices', idx');
    assert |mid| == |mid.Keys|;
  }
}
