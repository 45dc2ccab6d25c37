// The base icosahedron's twenty faces, and the table that shows it closed and oriented.
module Icosahedron {
  import opened Meshes

  datatype Face = Face(a: nat, b: nat, c: nat) {
    function At(k: Slot): nat {
      if k == 0 then a else if k == 1 then b else c
    }
  }

  function BaseFace(t: nat): Face {
    match t
    case 0 => Face(0, 11, 5)
    case 1 => Face(0, 5, 1)
    case 2 => Face(0, 1, 7)
    case 3 => Face(0, 7, 10)
    case 4 => Face(0, 10, 11)
    case 5 => Face(1, 5, 9)
    case 6 => Face(5, 11, 4)
    case 7 => Face(11, 10, 2)
    case 8 => Face(10, 7, 6)
    case 9 => Face(7, 1, 8)
    case 10 => Face(3, 9, 4)
    case 11 => Face(3, 4, 2)
    case 12 => Face(3, 2, 6)
    case 13 => Face(3, 6, 8)
    case 14 => Face(3, 8, 9)
    case 15 => Face(4, 9, 5)
    case 16 => Face(2, 4, 11)
    case 17 => Face(6, 2, 10)
    case 18 => Face(8, 6, 7)
    case 19 => Face(9, 8, 1)
    case _ => Face(0, 0, 0)
  }

  // The index list the source starts from: the faces one after another.
  function BaseIndices(): (s: seq<nat>)
    ensures |s| == 60
  {
    seq(60, i requires 0 <= i < 60 => BaseFace(i / 3).At(i % 3))
  }

  // The triangle and slot whose edge runs from a to b.
  function Owner(a: nat, b: nat): (nat, Slot) {
    match a
    case 0 => (match b case 1 => (2, 0) case 5 => (1, 0) case 7 => (3, 0) case 10 => (4, 0) case 11 => (0, 0)
                       case _ => (20, 0))
    case 1 => (match b case 0 => (1, 2) case 5 => (5, 0) case 7 => (2, 1) case 8 => (9, 1) case 9 => (19, 2)
                       case _ => (20, 0))
    case 2 => (match b case 3 => (11, 2) case 4 => (16, 0) case 6 => (12, 1) case 10 => (17, 1) case 11 => (7, 2)
                       case _ => (20, 0))
    case 3 => (match b case 2 => (12, 0) case 4 => (11, 0) case 6 => (13, 0) case 8 => (14, 0) case 9 => (10, 0)
                       case _ => (20, 0))
    case 4 => (match b case 2 => (11, 1) case 3 => (10, 2) case 5 => (6, 2) case 9 => (15, 0) case 11 => (16, 1)
                       case _ => (20, 0))
    case 5 => (match b case 0 => (0, 2) case 1 => (1, 1) case 4 => (15, 2) case 9 => (5, 1) case 11 => (6, 0)
                       case _ => (20, 0))
    case 6 => (match b case 2 => (17, 0) case 3 => (12, 2) case 7 => (18, 1) case 8 => (13, 1) case 10 => (8, 2)
                       case _ => (20, 0))
    case 7 => (match b case 0 => (2, 2) case 1 => (9, 0) case 6 => (8, 1) case 8 => (18, 2) case 10 => (3, 1)
                       case _ => (20, 0))
    case 8 => (match b case 1 => (19, 1) case 3 => (13, 2) case 6 => (18, 0) case 7 => (9, 2) case 9 => (14, 1)
                       case _ => (20, 0))
    case 9 => (match b case 1 => (5, 2) case 3 => (14, 2) case 4 => (10, 1) case 5 => (15, 1) case 8 => (19, 0)
                       case _ => (20, 0))
    case 10 => (match b case 0 => (3, 2) case 2 => (7, 1) case 6 => (17, 2) case 7 => (8, 0) case 11 => (4, 1)
                        case _ => (20, 0))
    case 11 => (match b case 0 => (4, 2) case 2 => (16, 2) case 4 => (6, 1) case 5 => (0, 1) case 10 => (7, 0)
                        case _ => (20, 0))
    case _ => (20, 0)
  }

  function BaseDst(t: nat, k: Slot): nat { BaseFace(t).At(Succ(k)) }

  // Owner inverts the faces, every edge has its reverse, and no edge is a loop.
  predicate EdgeChecks(t: nat, k: Slot) {
    var from, to := BaseFace(t).At(k), BaseDst(t, k);
    var back := Owner(to, from);
    && from < 12 && from != to && Owner(from, to) == (t, k)
    && back.0 < 20 && BaseFace(back.0).At(back.1) == to && BaseDst(back.0, back.1) == from
  }

  predicate NeighboursDiffer(t: nat, k: Slot, l: Slot) {
    k != l ==> Owner(BaseDst(t, k), BaseFace(t).At(k)).0 != Owner(BaseDst(t, l), BaseFace(t).At(l)).0
  }

  lemma Checks0(t: nat, k: Slot)
    requires 0 <= t < 4
    ensures EdgeChecks(t, k)
  {
  }

  lemma Checks4(t: nat, k: Slot)
    requires 4 <= t < 8
    ensures EdgeChecks(t, k)
  {
  }

  lemma Checks8(t: nat, k: Slot)
    requires 8 <= t < 12
    ensures EdgeChecks(t, k)
  {
  }

  lemma Checks12(t: nat, k: Slot)
    requires 12 <= t < 16
    ensures EdgeChecks(t, k)
  {
  }

  lemma Checks16(t: nat, k: Slot)
    requires 16 <= t < 20
    ensures EdgeChecks(t, k)
  {
  }

  lemma Neighbours0(t: nat, k: Slot, l: Slot)
    requires 0 <= t < 7
    ensures NeighboursDiffer(t, k, l)
  {
  }

  lemma Neighbours7(t: nat, k: Slot, l: Slot)
    requires 7 <= t < 14
    ensures NeighboursDiffer(t, k, l)
  {
  }

  lemma Neighbours14(t: nat, k: Slot, l: Slot)
    requires 14 <= t < 20
    ensures NeighboursDiffer(t, k, l)
  {
  }

  lemma BaseChecks(t: nat, k: Slot)
    requires t < 20
    ensures EdgeChecks(t, k)
  {
    hide EdgeChecks;
    if t < 4 { Checks0(t, k); }
    else if t < 8 { Checks4(t, k); }
    else if t < 12 { Checks8(t, k); }
    else if t < 16 { Checks12(t, k); }
    else { Checks16(t, k); }
  }

  lemma BaseNeighbours(t: nat, k: Slot, l: Slot)
    requires t < 20
    ensures NeighboursDiffer(t, k, l)
  {
    hide NeighboursDiffer;
    if t < 7 { Neighbours0(t, k, l); }
    else if t < 14 { Neighbours7(t, k, l); }
    else { Neighbours14(t, k, l); }
  }

  lemma BaseEdge(t: nat, k: Slot)
    requires t < 20
    ensures Org(BaseIndices(), t, k) == BaseFace(t).At(k) && Dst(BaseIndices(), t, k) == BaseDst(t, k)
  {
    hide BaseFace;
    assert (3 * t + k) / 3 == t && (3 * t + k) % 3 == k;
    assert (3 * t + Succ(k)) / 3 == t && (3 * t + Succ(k)) % 3 == Succ(k);
  }

  lemma BaseIsProper()
    ensures Proper(12, BaseIndices())
  {
    hide BaseFace, BaseDst, Owner, Org, Dst, BaseIndices;
    forall t, k: Slot | 0 <= t < 20
      ensures Org(BaseIndices(), t, k) < 12 && Org(BaseIndices(), t, k) != Dst(BaseIndices(), t, k)
    {
      BaseChecks(t, k);
      BaseEdge(t, k);
    }
  }

  lemma BaseIsOriented()
    ensures Oriented(BaseIndices())
  {
    hide BaseFace, BaseDst, Owner, Org, Dst, BaseIndices;
    forall t, k: Slot, u, l: Slot | 0 <= t < 20 && 0 <= u < 20 && SameEdge(BaseIndices(), t, k, u, l)
      ensures t == u && k == l
    {
      BaseChecks(t, k);
      BaseChecks(u, l);
      BaseEdge(t, k);
      BaseEdge(u, l);
    }
  }

  lemma BaseIsClosed()
    ensures Closed(BaseIndices())
  {
    hide BaseFace, BaseDst, Owner, Org, Dst, BaseIndices;
    forall t, k: Slot | 0 <= t < 20
      ensures HasTwin(BaseIndices(), t, k)
    {
      BaseChecks(t, k);
      BaseEdge(t, k);
      var back := Owner(BaseDst(t, k), BaseFace(t).At(k));
      BaseEdge(back.0, back.1);
      assert Opposite(BaseIndices(), t, k, back.0, back.1);
    }
  }

  lemma BaseIsSimplicial()
    ensures Simplicial(BaseIndices())
  {
    hide BaseFace, BaseDst, Owner, Org, Dst, BaseIndices;
    forall t, k: Slot, k': Slot, u, l: Slot, l': Slot |
        0 <= t < 20 && 0 <= u < 20 && Opposite(BaseIndices(), t, k, u, l) && Opposite(BaseIndices(), t, k', u, l')
      ensures k == k'
    {
      BaseEdge(t, k);
      BaseEdge(t, k');
      BaseEdge(u, l);
      BaseEdge(u, l');
      BaseChecks(u, l);
      BaseChecks(u, l');
      BaseNeighbours(t, k, k');
    }
  }

  // ------------------------------------------------------- fans and connection

  // The neighbours of vertex v, in the order its fan turns.
  function Neighbours(v: nat): (s: seq<nat>)
    ensures |s| == 5
  {
    match v
    case 0 => [11, 10, 7, 1, 5]
    case 1 => [0, 7, 8, 9, 5]
    case 2 => [11, 4, 3, 6, 10]
    case 3 => [9, 8, 6, 2, 4]
    case 4 => [5, 9, 3, 2, 11]
    case 5 => [0, 1, 9, 4, 11]
    case 6 => [10, 2, 3, 8, 7]
    case 7 => [0, 10, 6, 8, 1]
    case 8 => [7, 6, 3, 9, 1]
    case 9 => [1, 8, 3, 4, 5]
    case 10 => [0, 11, 2, 6, 7]
    case 11 => [5, 4, 2, 10, 0]
    case _ => [0, 0, 0, 0, 0]
  }

  // The edge from v to its i-th neighbour.
  function Spoke(v: nat, i: nat): (nat, Slot)
    requires i < 5
  {
    Owner(v, Neighbours(v)[i])
  }

  // Turning about v leads from one neighbour to the next, and each edge from v is a spoke.
  predicate TurnChecks(v: nat, i: nat)
    requires i < 5
  {
    var here := Spoke(v, i);
    var back := Owner(Neighbours(v)[i], v);
    && here.0 < 20 && BaseFace(here.0).At(here.1) == v && BaseDst(here.0, here.1) == Neighbours(v)[i]
    && back.0 < 20 && BaseFace(back.0).At(back.1) == Neighbours(v)[i] && BaseDst(back.0, back.1) == v
    && Spoke(v, (i + 1) % 5) == (back.0, Succ(back.1))
  }

  // How far triangle t is from triangle 0, and the edge that leads nearer.
  function Distance(t: nat): nat {
    match t
    case 0 => 0
    case 1 => 1
    case 2 => 2
    case 3 => 2
    case 4 => 1
    case 5 => 2
    case 6 => 1
    case 7 => 2
    case 8 => 3
    case 9 => 3
    case 10 => 3
    case 11 => 3
    case 12 => 4
    case 13 => 5
    case 14 => 4
    case 15 => 2
    case 16 => 2
    case 17 => 3
    case 18 => 4
    case 19 => 3
    case _ => 0
  }

  function Toward(t: nat): Slot {
    match t
    case 1 => 0
    case 2 => 0
    case 3 => 2
    case 4 => 2
    case 5 => 0
    case 6 => 0
    case 7 => 0
    case 8 => 0
    case 9 => 0
    case 10 => 1
    case 11 => 1
    case 12 => 1
    case 13 => 1
    case 14 => 2
    case 15 => 2
    case 16 => 1
    case 17 => 1
    case 18 => 1
    case 19 => 2
    case _ => 0
  }

  predicate NearerChecks(t: nat) {
    var next := Owner(BaseDst(t, Toward(t)), BaseFace(t).At(Toward(t))).0;
    Distance(next) < Distance(t)
  }

  predicate IsNeighbour(t: nat, k: Slot) {
    var ring, w := Neighbours(BaseFace(t).At(k)), BaseDst(t, k);
    ring[0] == w || ring[1] == w || ring[2] == w || ring[3] == w || ring[4] == w
  }

  lemma Turns0(v: nat, i: nat)
    requires 0 <= v < 2 && i < 5
    ensures TurnChecks(v, i)
  {
  }

  lemma Turns2(v: nat, i: nat)
    requires 2 <= v < 4 && i < 5
    ensures TurnChecks(v, i)
  {
  }

  lemma Turns4(v: nat, i: nat)
    requires 4 <= v < 6 && i < 5
    ensures TurnChecks(v, i)
  {
  }

  lemma Turns6(v: nat, i: nat)
    requires 6 <= v < 8 && i < 5
    ensures TurnChecks(v, i)
  {
  }

  lemma Turns8(v: nat, i: nat)
    requires 8 <= v < 10 && i < 5
    ensures TurnChecks(v, i)
  {
  }

  lemma Turns10(v: nat, i: nat)
    requires 10 <= v < 12 && i < 5
    ensures TurnChecks(v, i)
  {
  }

  lemma BaseTurns(v: nat, i: nat)
    requires v < 12 && i < 5
    ensures TurnChecks(v, i)
  {
    hide TurnChecks;
    if v < 2 { Turns0(v, i); }
    else if v < 4 { Turns2(v, i); }
    else if v < 6 { Turns4(v, i); }
    else if v < 8 { Turns6(v, i); }
    else if v < 10 { Turns8(v, i); }
    else { Turns10(v, i); }
  }

  lemma CornersAreSpokes(t: nat, k: Slot)
    requires t < 20
    ensures IsNeighbour(t, k)
  {
  }

  lemma BaseNearer(t: nat)
    requires 0 < t < 20
    ensures NearerChecks(t)
  {
  }

  lemma SpokeStep(v: nat, i: nat)
    requires v < 12 && i < 5
    ensures var here, there := Spoke(v, i), Spoke(v, (i + 1) % 5);
            && here.0 < 20 && there.0 < 20
            && Turns(BaseIndices(), here.0, here.1, 1, there.0, there.1)
  {
    hide BaseFace, BaseDst, Owner, Neighbours, BaseIndices, Org, Dst, Turns;
    BaseTurns(v, i);
    BaseTurns(v, (i + 1) % 5);
    var here, back := Spoke(v, i), Owner(Neighbours(v)[i], v);
    BaseEdge(here.0, here.1);
    BaseEdge(back.0, back.1);
    OneTurn(BaseIndices(), here.0, here.1, back.0, back.1);
  }

  lemma {:induction false} SpokeTurns(v: nat, i: nat, n: nat)
    requires v < 12 && i < 5
    ensures Spoke(v, i).0 < 20
    ensures Turns(BaseIndices(), Spoke(v, i).0, Spoke(v, i).1, n, Spoke(v, (i + n) % 5).0, Spoke(v, (i + n) % 5).1)
    decreases n
  {
    hide BaseFace, BaseDst, Owner, Neighbours, Opposite, BaseIndices;
    BaseTurns(v, i);
    var here, there := Spoke(v, i), Spoke(v, (i + 1) % 5);
    if n > 0 {
      SpokeTurns(v, (i + 1) % 5, n - 1);
      assert ((i + 1) % 5 + (n - 1)) % 5 == (i + n) % 5;
      SpokeStep(v, i);
      TurnsOn(BaseIndices(), here.0, here.1, 1, there.0, there.1, n - 1, Spoke(v, (i + n) % 5).0,
              Spoke(v, (i + n) % 5).1);
    } else {
      assert (i + n) % 5 == i;
    }
  }

  lemma SpokeOf(t: nat, k: Slot) returns (i: nat)
    requires t < 20
    ensures i < 5 && Spoke(BaseFace(t).At(k), i) == (t, k) && BaseFace(t).At(k) < 12
  {
    hide BaseFace, Neighbours, Owner, BaseDst;
    CornersAreSpokes(t, k);
    BaseChecks(t, k);
    var ring, w := Neighbours(BaseFace(t).At(k)), BaseDst(t, k);
    i := if ring[0] == w then 0 else if ring[1] == w then 1 else if ring[2] == w then 2
      else if ring[3] == w then 3 else 4;
  }

  lemma BaseHasOneFan()
    ensures OneFan(BaseIndices())
  {
    hide BaseFace, BaseDst, Owner, Org, Dst, BaseIndices, Turns, Spoke, Neighbours;
    forall t, k: Slot, u, l: Slot {:trigger Org(BaseIndices(), t, k), Org(BaseIndices(), u, l)} |
        0 <= t < 20 && 0 <= u < 20 && Org(BaseIndices(), t, k) == Org(BaseIndices(), u, l)
      ensures SameFan(BaseIndices(), t, k, u, l)
    {
      BaseEdge(t, k);
      BaseEdge(u, l);
      var i := SpokeOf(t, k);
      var j := SpokeOf(u, l);
      var n: nat := (j + 5 - i) % 5;
      assert (i + n) % 5 == j;
      SpokeTurns(BaseFace(t).At(k), i, n);
    }
  }

  lemma BaseIsSpanning()
    ensures Spanning(12, BaseIndices())
  {
    hide BaseFace, BaseDst, Owner, Org, Dst, BaseIndices, Neighbours;
    forall v: nat | v < 12
      ensures Used(BaseIndices(), v)
    {
      BaseTurns(v, 0);
      BaseEdge(Spoke(v, 0).0, Spoke(v, 0).1);
    }
  }

  lemma {:induction false} JoinedToFirst(t: nat)
    requires t < 20
    ensures Joined(BaseIndices(), t, 0)
    decreases Distance(t)
  {
    hide BaseFace, BaseDst, Owner, Org, Dst, BaseIndices;
    if t == 0 {
      assert Walk(BaseIndices(), 0, 0, 0);
    } else {
      var k := Toward(t);
      BaseNearer(t);
      BaseChecks(t, k);
      BaseEdge(t, k);
      var back := Owner(BaseDst(t, k), BaseFace(t).At(k));
      BaseEdge(back.0, back.1);
      JoinedToFirst(back.0);
      OneStep(BaseIndices(), t, k, back.0, back.1);
      assert Joined(BaseIndices(), t, back.0);
      JoinedOn(BaseIndices(), t, back.0, 0);
    }
  }

  lemma BaseIsConnected()
    ensures Connected(BaseIndices())
  {
    hide BaseIndices, Joined;
    forall t, u | 0 <= t < 20 && 0 <= u < 20
      ensures Joined(BaseIndices(), t, u)
    {
      JoinedToFirst(t);
      JoinedToFirst(u);
      JoinedBack(BaseIndices(), u, 0);
      JoinedOn(BaseIndices(), t, 0, u);
    }
  }

  lemma BaseIsManifold()
    ensures Manifold(12, BaseIndices())
  {
    hide Proper, Oriented, Closed, Simplicial, OneFan;
    BaseIsProper();
    BaseIsOriented();
    BaseIsClosed();
    BaseIsSimplicial();
    BaseHasOneFan();
  }
}
