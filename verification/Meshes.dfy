// Triangle meshes as flat index lists, read as graphs of directed edges: edge (t, k)
// runs from corner k of triangle t to the next corner.
module Meshes {
  type Slot = k: nat | k < 3 witness 0

  function Succ(k: Slot): Slot { if k == 2 then 0 else k + 1 }

  function Pred(k: Slot): Slot { if k == 0 then 2 else k - 1 }

  function Triangles(idx: seq<nat>): nat { |idx| / 3 }

  function Org(idx: seq<nat>, t: nat, k: Slot): nat
    requires t < Triangles(idx)
  {
    idx[3 * t + k]
  }

  function Dst(idx: seq<nat>, t: nat, k: Slot): nat
    requires t < Triangles(idx)
  {
    Org(idx, t, Succ(k))
  }

  // Every corner names a vertex and no edge is a loop.
  ghost predicate Proper(vertices: nat, idx: seq<nat>) {
    && |idx| == 3 * Triangles(idx)
    && forall t, k: Slot {:trigger Org(idx, t, k)} :: 0 <= t < Triangles(idx) ==>
         Org(idx, t, k) < vertices && Org(idx, t, k) != Dst(idx, t, k)
  }

  predicate SameEdge(idx: seq<nat>, t: nat, k: Slot, u: nat, l: Slot)
    requires t < Triangles(idx) && u < Triangles(idx)
  {
    Org(idx, t, k) == Org(idx, u, l) && Dst(idx, t, k) == Dst(idx, u, l)
  }

  predicate Opposite(idx: seq<nat>, t: nat, k: Slot, u: nat, l: Slot)
    requires t < Triangles(idx) && u < Triangles(idx)
  {
    Org(idx, t, k) == Dst(idx, u, l) && Dst(idx, t, k) == Org(idx, u, l)
  }

  // Consistently oriented: a directed edge belongs to one triangle only.
  ghost predicate Oriented(idx: seq<nat>) {
    forall t, k: Slot, u, l: Slot {:trigger SameEdge(idx, t, k, u, l)} ::
      0 <= t < Triangles(idx) && 0 <= u < Triangles(idx) && SameEdge(idx, t, k, u, l) ==> t == u && k == l
  }

  ghost predicate HasTwin(idx: seq<nat>, t: nat, k: Slot)
    requires t < Triangles(idx)
  {
    exists u, l: Slot :: 0 <= u < Triangles(idx) && Opposite(idx, t, k, u, l)
  }

  // Closed: the reverse of every edge is an edge too.
  ghost predicate Closed(idx: seq<nat>) {
    forall t, k: Slot :: 0 <= t < Triangles(idx) ==> HasTwin(idx, t, k)
  }

  // No two triangles are glued along two edges.
  ghost predicate Simplicial(idx: seq<nat>) {
    forall t, k: Slot, k': Slot, u, l: Slot, l': Slot
      {:trigger Opposite(idx, t, k, u, l), Opposite(idx, t, k', u, l')} ::
      (0 <= t < Triangles(idx) && 0 <= u < Triangles(idx)
       && Opposite(idx, t, k, u, l) && Opposite(idx, t, k', u, l')) ==> k == k'
  }

  // n turns about the origin of edge (t, k) lead to edge (u, l): each goes across an edge
  // and on to the next edge of the triangle beyond, which starts at the same vertex.
  ghost predicate Turns(idx: seq<nat>, t: nat, k: Slot, n: nat, u: nat, l: Slot)
    requires t < Triangles(idx)
    decreases n
  {
    if n == 0 then t == u && k == l
    else exists t', k': Slot ::
      0 <= t' < Triangles(idx) && Opposite(idx, t, k, t', k') && Turns(idx, t', Succ(k'), n - 1, u, l)
  }

  ghost predicate SameFan(idx: seq<nat>, t: nat, k: Slot, u: nat, l: Slot)
    requires t < Triangles(idx)
  {
    exists n: nat :: Turns(idx, t, k, n, u, l)
  }

  // The triangles around each vertex form one closed fan, so that no two sheets touch there.
  ghost predicate OneFan(idx: seq<nat>) {
    forall t, k: Slot, u, l: Slot {:trigger Org(idx, t, k), Org(idx, u, l)} ::
      0 <= t < Triangles(idx) && 0 <= u < Triangles(idx) && Org(idx, t, k) == Org(idx, u, l) ==>
        SameFan(idx, t, k, u, l)
  }

  ghost predicate Manifold(vertices: nat, idx: seq<nat>) {
    Proper(vertices, idx) && Oriented(idx) && Closed(idx) && Simplicial(idx) && OneFan(idx)
  }

  // Every vertex is the corner of some triangle.
  ghost predicate Used(idx: seq<nat>, v: nat) {
    exists t, k: Slot :: 0 <= t < Triangles(idx) && Org(idx, t, k) == v
  }

  ghost predicate Spanning(vertices: nat, idx: seq<nat>) {
    forall v: nat :: v < vertices ==> Used(idx, v)
  }

  // n steps from triangle to neighbouring triangle lead from t to u.
  ghost predicate Walk(idx: seq<nat>, t: nat, n: nat, u: nat)
    requires t < Triangles(idx)
    decreases n
  {
    if n == 0 then t == u
    else exists k: Slot, t', k': Slot ::
      0 <= t' < Triangles(idx) && Opposite(idx, t, k, t', k') && Walk(idx, t', n - 1, u)
  }

  ghost predicate Joined(idx: seq<nat>, t: nat, u: nat)
    requires t < Triangles(idx)
  {
    exists n: nat :: Walk(idx, t, n, u)
  }

  ghost predicate Connected(idx: seq<nat>) {
    forall t, u :: 0 <= t < Triangles(idx) && 0 <= u < Triangles(idx) ==> Joined(idx, t, u)
  }

  lemma {:induction false} TurnsOn(idx: seq<nat>, t: nat, k: Slot, n: nat, u: nat, l: Slot, m: nat, w: nat, j: Slot)
    requires t < Triangles(idx) && u < Triangles(idx) && Turns(idx, t, k, n, u, l) && Turns(idx, u, l, m, w, j)
    ensures Turns(idx, t, k, n + m, w, j)
    decreases n
  {
    hide Opposite;
    if n > 0 {
      var t', k': Slot :|
        0 <= t' < Triangles(idx) && Opposite(idx, t, k, t', k') && Turns(idx, t', Succ(k'), n - 1, u, l);
      TurnsOn(idx, t', Succ(k'), n - 1, u, l, m, w, j);
    }
  }

  lemma OneTurn(idx: seq<nat>, t: nat, k: Slot, u: nat, l: Slot)
    requires t < Triangles(idx) && u < Triangles(idx) && Opposite(idx, t, k, u, l)
    ensures Turns(idx, t, k, 1, u, Succ(l))
  {
    hide Opposite;
    assert Turns(idx, u, Succ(l), 0, u, Succ(l));
  }

  lemma {:induction false} WalkOn(idx: seq<nat>, t: nat, n: nat, u: nat, m: nat, w: nat)
    requires t < Triangles(idx) && u < Triangles(idx) && Walk(idx, t, n, u) && Walk(idx, u, m, w)
    ensures Walk(idx, t, n + m, w)
    decreases n
  {
    hide Opposite;
    if n > 0 {
      var k: Slot, t', k': Slot :| 0 <= t' < Triangles(idx) && Opposite(idx, t, k, t', k') && Walk(idx, t', n - 1, u);
      WalkOn(idx, t', n - 1, u, m, w);
    }
  }

  lemma OneStep(idx: seq<nat>, t: nat, k: Slot, u: nat, l: Slot)
    requires t < Triangles(idx) && u < Triangles(idx) && Opposite(idx, t, k, u, l)
    ensures Walk(idx, t, 1, u) && Walk(idx, u, 1, t)
  {
    assert Opposite(idx, u, l, t, k);
    hide Opposite;
    assert Walk(idx, u, 0, u) && Walk(idx, t, 0, t);
  }

  lemma {:induction false} WalkBack(idx: seq<nat>, t: nat, n: nat, u: nat)
    requires t < Triangles(idx) && u < Triangles(idx) && Walk(idx, t, n, u)
    ensures Walk(idx, u, n, t)
    decreases n
  {
    hide Opposite;
    if n > 0 {
      var k: Slot, t', k': Slot :| 0 <= t' < Triangles(idx) && Opposite(idx, t, k, t', k') && Walk(idx, t', n - 1, u);
      WalkBack(idx, t', n - 1, u);
      OneStep(idx, t, k, t', k');
      WalkOn(idx, u, n - 1, t', 1, t);
    }
  }

  lemma JoinedOn(idx: seq<nat>, t: nat, u: nat, w: nat)
    requires t < Triangles(idx) && u < Triangles(idx) && Joined(idx, t, u) && Joined(idx, u, w)
    ensures Joined(idx, t, w)
  {
    hide Walk;
    var n: nat :| Walk(idx, t, n, u);
    var m: nat :| Walk(idx, u, m, w);
    WalkOn(idx, t, n, u, m, w);
  }

  lemma JoinedBack(idx: seq<nat>, t: nat, u: nat)
    requires t < Triangles(idx) && u < Triangles(idx) && Joined(idx, t, u)
    ensures Joined(idx, u, t)
  {
    hide Walk;
    var n: nat :| Walk(idx, t, n, u);
    WalkBack(idx, t, n, u);
  }

  // -------------------------------------------------------------- undirected edges

  type Key = (nat, nat)

  function KeyOf(a: nat, b: nat): Key {
    (if a < b then a else b, if a < b then b else a)
  }

  function EdgeKey(idx: seq<nat>, t: nat, k: Slot): Key
    requires t < Triangles(idx)
  {
    KeyOf(Org(idx, t, k), Dst(idx, t, k))
  }

  function UndirectedEdges(idx: seq<nat>): set<Key> {
    set t, k: Slot | 0 <= t < Triangles(idx) && 0 <= k < 3 :: EdgeKey(idx, t, k)
  }

  lemma SameKeyIsSameOrOpposite(idx: seq<nat>, t: nat, k: Slot, u: nat, l: Slot)
    requires t < Triangles(idx) && u < Triangles(idx)
    ensures EdgeKey(idx, t, k) == EdgeKey(idx, u, l) <==> SameEdge(idx, t, k, u, l) || Opposite(idx, t, k, u, l)
  {
  }

  // ---- counting: each undirected edge carries exactly two directed ones
  function FaceEdges(idx: seq<nat>, t: nat): set<Key>
    requires t < Triangles(idx)
  {
    {(Org(idx, t, 0), Org(idx, t, 1)), (Org(idx, t, 1), Org(idx, t, 2)), (Org(idx, t, 2), Org(idx, t, 0))}
  }

  function EdgesUpTo(idx: seq<nat>, m: nat): set<Key>
    requires m <= Triangles(idx)
  {
    if m == 0 then {} else EdgesUpTo(idx, m - 1) + FaceEdges(idx, m - 1)
  }

  // e is an edge of one of the first m triangles.
  ghost predicate IsEdge(idx: seq<nat>, m: nat, e: Key)
    requires m <= Triangles(idx)
  {
    exists t, k: Slot :: 0 <= t < m && Org(idx, t, k) == e.0 && Dst(idx, t, k) == e.1
  }

  lemma FaceEdgesAre(idx: seq<nat>, t: nat, e: Key)
    requires t < Triangles(idx)
    ensures e in FaceEdges(idx, t) <==> exists k: Slot :: Org(idx, t, k) == e.0 && Dst(idx, t, k) == e.1
  {
    if e in FaceEdges(idx, t) {
      var k: Slot := if e == (Org(idx, t, 0), Org(idx, t, 1)) then 0
                     else if e == (Org(idx, t, 1), Org(idx, t, 2)) then 1 else 2;
      assert Org(idx, t, k) == e.0 && Dst(idx, t, k) == e.1;
    }
  }

  lemma {:induction false} EdgesUpToAre(idx: seq<nat>, m: nat, e: Key)
    requires m <= Triangles(idx)
    ensures e in EdgesUpTo(idx, m) <==> IsEdge(idx, m, e)
  {
    if m > 0 {
      EdgesUpToAre(idx, m - 1, e);
      FaceEdgesAre(idx, m - 1, e);
    }
  }

  lemma FaceEdgesAreNew(idx: seq<nat>, t: nat, e: Key)
    requires Oriented(idx) && t < Triangles(idx) && e in FaceEdges(idx, t)
    ensures e !in EdgesUpTo(idx, t)
  {
    FaceEdgesAre(idx, t, e);
    EdgesUpToAre(idx, t, e);
    hide EdgesUpTo, FaceEdges;
    var k: Slot :| Org(idx, t, k) == e.0 && Dst(idx, t, k) == e.1;
    forall u, l: Slot | 0 <= u < t
      ensures !(Org(idx, u, l) == e.0 && Dst(idx, u, l) == e.1)
    {
      assert SameEdge(idx, u, l, t, k) ==> u == t;
    }
  }

  lemma FaceHasThreeEdges(vertices: nat, idx: seq<nat>, t: nat)
    requires Proper(vertices, idx) && t < Triangles(idx)
    ensures |FaceEdges(idx, t)| == 3
  {
    assert Org(idx, t, 0) != Dst(idx, t, 0) && Org(idx, t, 1) != Dst(idx, t, 1) && Org(idx, t, 2) != Dst(idx, t, 2);
  }

  lemma {:induction false} EdgesUpToCount(vertices: nat, idx: seq<nat>, m: nat)
    requires Proper(vertices, idx) && Oriented(idx) && m <= Triangles(idx)
    ensures |EdgesUpTo(idx, m)| == 3 * m
  {
    hide FaceEdges, Proper, Oriented;
    if m > 0 {
      EdgesUpToCount(vertices, idx, m - 1);
      var added := FaceEdges(idx, m - 1);
      forall e | e in added
        ensures e !in EdgesUpTo(idx, m - 1)
      {
        FaceEdgesAreNew(idx, m - 1, e);
      }
      FaceHasThreeEdges(vertices, idx, m - 1);
    }
  }

  function Flip(e: Key): Key { (e.1, e.0) }

  lemma {:induction false} FlipSize(s: set<Key>)
    ensures |set e | e in s :: Flip(e)| == |s|
    decreases s
  {
    var image := set e | e in s :: Flip(e);
    if s == {} {
      assert image == {};
    } else {
      var x :| x in s;
      var rest := s - {x};
      FlipSize(rest);
      var image' := set e | e in rest :: Flip(e);
      assert image == image' + {Flip(x)};
    }
  }

  // A set of edges closed under reversal and without loops splits evenly.
  lemma HalfPointUp(all: set<Key>)
    requires forall e :: e in all ==> e.0 != e.1 && Flip(e) in all
    ensures 2 * |set e | e in all && e.0 < e.1| == |all|
  {
    var up := set e | e in all && e.0 < e.1;
    var down := set e | e in all && e.0 > e.1;
    assert all == up + down && up * down == {};
    var flipped := set e | e in up :: Flip(e);
    forall e | e in down
      ensures e in flipped
    {
      assert Flip(Flip(e)) == e && Flip(e) in up;
    }
    assert flipped == down;
    FlipSize(up);
  }

  lemma Twin(idx: seq<nat>, t: nat, k: Slot) returns (u: nat, l: Slot)
    requires Closed(idx) && t < Triangles(idx)
    ensures u < Triangles(idx) && Opposite(idx, t, k, u, l)
  {
    hide Dst, Opposite;
    assert HasTwin(idx, t, k);
    u, l :| 0 <= u < Triangles(idx) && Opposite(idx, t, k, u, l);
  }

  lemma EdgeHasReverse(vertices: nat, idx: seq<nat>, e: Key)
    requires Proper(vertices, idx) && Closed(idx) && IsEdge(idx, Triangles(idx), e)
    ensures e.0 != e.1 && IsEdge(idx, Triangles(idx), Flip(e))
  {
    hide Org, Dst;
    var t, k: Slot :| 0 <= t < Triangles(idx) && Org(idx, t, k) == e.0 && Dst(idx, t, k) == e.1;
    var u, l := Twin(idx, t, k);
    assert Org(idx, u, l) == e.1 && Dst(idx, u, l) == e.0;
  }

  lemma UpIsUndirected(vertices: nat, idx: seq<nat>, e: Key)
    requires Proper(vertices, idx)
    requires IsEdge(idx, Triangles(idx), e) <==> IsEdge(idx, Triangles(idx), Flip(e))
    ensures IsEdge(idx, Triangles(idx), e) && e.0 < e.1 <==> e in UndirectedEdges(idx)
  {
    if IsEdge(idx, Triangles(idx), e) && e.0 < e.1 {
      var t, k: Slot :| 0 <= t < Triangles(idx) && Org(idx, t, k) == e.0 && Dst(idx, t, k) == e.1;
      assert EdgeKey(idx, t, k) == e;
    }
    if e in UndirectedEdges(idx) {
      var t, k: Slot :| 0 <= t < Triangles(idx) && e == EdgeKey(idx, t, k);
      assert Org(idx, t, k) != Dst(idx, t, k);
      assert IsEdge(idx, Triangles(idx), (Org(idx, t, k), Dst(idx, t, k)));
    }
  }

  lemma UndirectedCount(vertices: nat, idx: seq<nat>)
    requires Proper(vertices, idx) && Oriented(idx) && Closed(idx)
    ensures 2 * |UndirectedEdges(idx)| == |idx|
  {
    hide IsEdge, EdgesUpTo, UndirectedEdges, Oriented, Closed;
    var n := Triangles(idx);
    var all := EdgesUpTo(idx, n);
    EdgesUpToCount(vertices, idx, n);
    forall e | e in all
      ensures e.0 != e.1 && Flip(e) in all
    {
      EdgesUpToAre(idx, n, e);
      EdgesUpToAre(idx, n, Flip(e));
      EdgeHasReverse(vertices, idx, e);
    }
    HalfPointUp(all);
    var up := set e | e in all && e.0 < e.1;
    forall e
      ensures e in up <==> e in UndirectedEdges(idx)
    {
      EdgesUpToAre(idx, n, e);
      EdgesUpToAre(idx, n, Flip(e));
      assert Flip(Flip(e)) == e;
      UpIsUndirected(vertices, idx, e);
    }
    assert up == UndirectedEdges(idx);
  }
}
