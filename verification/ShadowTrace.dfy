// trace_shadow: an explicit-stack walk over the packed records. The reader takes the
// two children of an inner record from leftOrFirst and leftOrFirst + 1.
module ShadowTrace {
  import opened Geometry
  import opened Rays
  import opened BvhTree
  import opened BvhLayout

  const STACK_SIZE := 32

  // ---------------------------------------------------- the records as a graph

  // An inner record whose two children, as the reader addresses them, come later.
  predicate HasKids(nodes: seq<Record>, i: nat)
    requires i < |nodes|
  {
    nodes[i].rightOrCount == 0 && i < nodes[i].leftOrFirst && nodes[i].leftOrFirst + 1 < |nodes|
  }

  // The bounds of no triangles: no point is inside.
  const HOLLOW := Box(Ext3(PosInf, PosInf, PosInf), Ext3(NegInf, NegInf, NegInf))

  // What the shader relies on to stay inside its buffers. The one record of an empty
  // scene looks like an inner one; its hollow box keeps the reader out.
  predicate WellFormed(nodes: seq<Record>, faces: seq<Face>) {
    && nodes != []
    && forall i :: 0 <= i < |nodes| ==>
         if nodes[i].rightOrCount > 0 then nodes[i].leftOrFirst + nodes[i].rightOrCount <= |faces|
         else HasKids(nodes, i) || nodes[i].box == HOLLOW
  }

  function Height(nodes: seq<Record>, i: nat): nat
    requires i < |nodes|
    decreases |nodes| - i
  {
    if HasKids(nodes, i) then
      var a := Height(nodes, nodes[i].leftOrFirst);
      var b := Height(nodes, nodes[i].leftOrFirst + 1);
      1 + if a > b then a else b
    else 0
  }

  // Some reader's path leads from node i to a leaf that owns triangle k, through nodes
  // whose gates are all open.
  predicate Path(nodes: seq<Record>, gates: seq<bool>, i: nat, k: nat)
    requires i < |nodes| == |gates|
    decreases |nodes| - i
  {
    && gates[i]
    && (|| Owns(nodes[i], k)
        || (HasKids(nodes, i)
            && (Path(nodes, gates, nodes[i].leftOrFirst, k) || Path(nodes, gates, nodes[i].leftOrFirst + 1, k))))
  }

  function AllOpen(nodes: seq<Record>): (g: seq<bool>)
    ensures |g| == |nodes|
  {
    seq(|nodes|, _ => true)
  }

  function Entered(nodes: seq<Record>, ray: Ray): (g: seq<bool>)
    ensures |g| == |nodes|
  {
    seq(|nodes|, i requires 0 <= i < |nodes| => Enters(ray, nodes[i].box))
  }

  function Outside(nodes: seq<Record>, ray: Ray): (g: seq<bool>)
    ensures |g| == |nodes|
  {
    seq(|nodes|, i requires 0 <= i < |nodes| => !StartsInside(ray, nodes[i].box))
  }

  // No face of any node box is in line with the ray.
  ghost predicate ClearOfAll(nodes: seq<Record>, ray: Ray) {
    forall i :: 0 <= i < |nodes| ==> Clear(ray, nodes[i].box)
  }

  // Some triangle in reach through open gates is hit within range.
  ghost predicate HitThrough(nodes: seq<Record>, faces: seq<Face>, ray: Ray, gates: seq<bool>, i: nat)
    requires i < |nodes| == |gates|
  {
    exists k: nat :: k < |faces| && Hits(ray, faces[k]) && Path(nodes, gates, i, k)
  }

  // ------------------------------------------------------------- the walk itself

  // Bounds the work left for the stacked indices: children weigh less than their parent.
  ghost function Weight(n: nat, stack: seq<nat>): nat
    requires forall j :: 0 <= j < |stack| ==> stack[j] < n
  {
    if stack == [] then 0
    else Weight(n, stack[..|stack| - 1]) + Pow2(n - stack[|stack| - 1])
  }

  lemma WeightPush(n: nat, stack: seq<nat>, i: nat)
    requires forall j :: 0 <= j < |stack| ==> stack[j] < n
    requires i < n
    ensures Weight(n, stack + [i]) == Weight(n, stack) + Pow2(n - i)
  {
    assert (stack + [i])[..|stack|] == stack;
  }

  lemma {:induction false} Pow2Monotone(a: nat, b: nat)
    requires a <= b
    ensures Pow2(a) <= Pow2(b)
    decreases b
  {
    if a < b {
      Pow2Monotone(a, b - 1);
    }
  }

  lemma TwoSmallerPowers(a: nat, b: nat)
    requires 0 < b < a
    ensures Pow2(b) + Pow2(b - 1) < Pow2(a)
  {
    Pow2Monotone(b, a - 1);
    assert Pow2(b) == 2 * Pow2(b - 1) && Pow2(a) == 2 * Pow2(a - 1);
  }

  lemma KidsWeighLess(n: nat, stack: seq<nat>, i: nat, l: nat)
    requires forall j :: 0 <= j < |stack| ==> stack[j] < n
    requires i < l && l + 1 < n
    ensures Weight(n, stack + [l + 1, l]) < Weight(n, stack + [i])
  {
    hide Weight, Pow2;
    WeightPush(n, stack, i);
    WeightPush(n, stack, l + 1);
    WeightPush(n, stack + [l + 1], l);
    assert stack + [l + 1] + [l] == stack + [l + 1, l];
    TwoSmallerPowers(n - i, n - l);
  }

  // Some stacked index still leads to a hit.
  ghost predicate Pending(nodes: seq<Record>, faces: seq<Face>, ray: Ray, stack: seq<nat>)
    requires forall j :: 0 <= j < |stack| ==> stack[j] < |nodes|
  {
    exists j :: 0 <= j < |stack| && HitThrough(nodes, faces, ray, Entered(nodes, ray), stack[j])
  }

  lemma PendingPush(nodes: seq<Record>, faces: seq<Face>, ray: Ray, stack: seq<nat>, i: nat)
    requires forall j :: 0 <= j < |stack| ==> stack[j] < |nodes|
    requires i < |nodes|
    ensures Pending(nodes, faces, ray, stack + [i])
       <==> Pending(nodes, faces, ray, stack) || HitThrough(nodes, faces, ray, Entered(nodes, ray), i)
  {
    hide HitThrough, Entered;
    var s := stack + [i];
    if HitThrough(nodes, faces, ray, Entered(nodes, ray), i) {
      assert s[|stack|] == i;
    }
    if Pending(nodes, faces, ray, stack) {
      var j :| 0 <= j < |stack| && HitThrough(nodes, faces, ray, Entered(nodes, ray), stack[j]);
      assert s[j] == stack[j];
    }
  }

  ghost predicate LeafHit(faces: seq<Face>, ray: Ray, r: Record)
    requires r.leftOrFirst + r.rightOrCount <= |faces|
  {
    exists k :: r.leftOrFirst <= k < r.leftOrFirst + r.rightOrCount && Hits(ray, faces[k])
  }

  // What one node contributes: nothing if shut, its triangles if a leaf, else its children.
  lemma HitThroughStep(nodes: seq<Record>, faces: seq<Face>, ray: Ray, gates: seq<bool>, i: nat)
    requires WellFormed(nodes, faces) && i < |nodes| == |gates|
    ensures !gates[i] ==> !HitThrough(nodes, faces, ray, gates, i)
    ensures gates[i] && nodes[i].rightOrCount > 0 ==>
              (HitThrough(nodes, faces, ray, gates, i) <==> LeafHit(faces, ray, nodes[i]))
    ensures gates[i] && HasKids(nodes, i) ==>
              (HitThrough(nodes, faces, ray, gates, i)
               <==> || HitThrough(nodes, faces, ray, gates, nodes[i].leftOrFirst)
                    || HitThrough(nodes, faces, ray, gates, nodes[i].leftOrFirst + 1))
  {
    if gates[i] && nodes[i].rightOrCount > 0 && LeafHit(faces, ray, nodes[i]) {
      var k :| nodes[i].leftOrFirst <= k < nodes[i].leftOrFirst + nodes[i].rightOrCount && Hits(ray, faces[k]);
      assert Path(nodes, gates, i, k);
    }
  }

  lemma HollowIsShut(ray: Ray)
    ensures !Enters(ray, HOLLOW)
  {
    var inv := Reciprocal(ray.d);
    assert SlabMin(HOLLOW, ray.o, inv, 0) == NegInf;
    assert SlabMin(HOLLOW, ray.o, inv, 1) == NegInf;
    assert SlabMin(HOLLOW, ray.o, inv, 2) == NegInf;
  }

  // ---- the loop invariant: the stack accounts for the answer, and fits
  ghost predicate Fits(nodes: seq<Record>, stack: seq<nat>) {
    && (forall j :: 0 <= j < |stack| ==> stack[j] < |nodes|)
    && forall j :: 0 <= j < |stack| ==> j + Height(nodes, stack[j]) < STACK_SIZE
  }

  ghost predicate Accounts(nodes: seq<Record>, faces: seq<Face>, ray: Ray, stack: seq<nat>)
    requires nodes != []
  {
    && (forall j :: 0 <= j < |stack| ==> stack[j] < |nodes|)
    && (Pending(nodes, faces, ray, stack) ==> HitThrough(nodes, faces, ray, Entered(nodes, ray), 0))
    && (Height(nodes, 0) < STACK_SIZE ==>
          && Fits(nodes, stack)
          && (HitThrough(nodes, faces, ray, Entered(nodes, ray), 0) ==> Pending(nodes, faces, ray, stack)))
  }

  lemma AccountsStart(nodes: seq<Record>, faces: seq<Face>, ray: Ray)
    requires nodes != []
    ensures Accounts(nodes, faces, ray, [0])
  {
    PendingPush(nodes, faces, ray, [], 0);
    assert [] + [0] == [0];
  }

  lemma AccountsEnd(nodes: seq<Record>, faces: seq<Face>, ray: Ray)
    requires nodes != [] && Accounts(nodes, faces, ray, [])
    ensures Height(nodes, 0) < STACK_SIZE ==> !HitThrough(nodes, faces, ray, Entered(nodes, ray), 0)
  {
  }

  lemma RestInRange(nodes: seq<Record>, rest: seq<nat>, i: nat)
    requires forall j :: 0 <= j < |rest + [i]| ==> (rest + [i])[j] < |nodes|
    ensures forall j :: 0 <= j < |rest| ==> rest[j] < |nodes|
    ensures i < |nodes|
  {
    assert (rest + [i])[|rest|] == i;
    forall j | 0 <= j < |rest|
      ensures rest[j] < |nodes|
    {
      assert (rest + [i])[j] == rest[j];
    }
  }

  lemma FitsRest(nodes: seq<Record>, rest: seq<nat>, tail: seq<nat>)
    ensures Fits(nodes, rest + tail) ==> Fits(nodes, rest)
  {
    if Fits(nodes, rest + tail) {
      forall j | 0 <= j < |rest|
        ensures rest[j] < |nodes| && j + Height(nodes, rest[j]) < STACK_SIZE
      {
        assert (rest + tail)[j] == rest[j];
      }
    }
  }

  // A shut node, or a leaf without a hit, can be dropped.
  lemma AccountsDrop(nodes: seq<Record>, faces: seq<Face>, ray: Ray, rest: seq<nat>, i: nat)
    requires WellFormed(nodes, faces) && Accounts(nodes, faces, ray, rest + [i])
    requires i < |nodes|
    requires Enters(ray, nodes[i].box) ==> nodes[i].rightOrCount > 0 && !LeafHit(faces, ray, nodes[i])
    ensures Accounts(nodes, faces, ray, rest)
  {
    RestInRange(nodes, rest, i);
    PendingPush(nodes, faces, ray, rest, i);
    HitThroughStep(nodes, faces, ray, Entered(nodes, ray), i);
    assert Entered(nodes, ray)[i] == Enters(ray, nodes[i].box);
    hide Pending, HitThrough, Enters, LeafHit;
    FitsRest(nodes, rest, [i]);
  }

  // A leaf hit settles the answer.
  lemma AccountsHit(nodes: seq<Record>, faces: seq<Face>, ray: Ray, rest: seq<nat>, i: nat)
    requires WellFormed(nodes, faces) && Accounts(nodes, faces, ray, rest + [i])
    requires i < |nodes| && Enters(ray, nodes[i].box)
    requires nodes[i].rightOrCount > 0 && LeafHit(faces, ray, nodes[i])
    ensures HitThrough(nodes, faces, ray, Entered(nodes, ray), 0)
  {
    RestInRange(nodes, rest, i);
    PendingPush(nodes, faces, ray, rest, i);
    HitThroughStep(nodes, faces, ray, Entered(nodes, ray), i);
  }

  lemma EnteredAt(nodes: seq<Record>, ray: Ray, i: nat)
    requires i < |nodes|
    ensures Entered(nodes, ray)[i] <==> Enters(ray, nodes[i].box)
  {
    hide Enters;
  }

  lemma PendingKids(nodes: seq<Record>, faces: seq<Face>, ray: Ray, rest: seq<nat>, i: nat)
    requires WellFormed(nodes, faces)
    requires i < |nodes| && Enters(ray, nodes[i].box) && HasKids(nodes, i)
    requires forall j :: 0 <= j < |rest| ==> rest[j] < |nodes|
    ensures var l := nodes[i].leftOrFirst;
            Pending(nodes, faces, ray, rest + [l + 1, l]) <==> Pending(nodes, faces, ray, rest + [i])
  {
    hide Pending, HitThrough, Entered, Enters;
    EnteredAt(nodes, ray, i);
    var l := nodes[i].leftOrFirst;
    PendingPush(nodes, faces, ray, rest, i);
    PendingPush(nodes, faces, ray, rest, l + 1);
    PendingPush(nodes, faces, ray, rest + [l + 1], l);
    assert rest + [l + 1] + [l] == rest + [l + 1, l];
    HitThroughStep(nodes, faces, ray, Entered(nodes, ray), i);
  }

  lemma FitsKids(nodes: seq<Record>, rest: seq<nat>, i: nat)
    requires i < |nodes| && HasKids(nodes, i)
    ensures Fits(nodes, rest + [i]) ==>
              && Fits(nodes, rest + [nodes[i].leftOrFirst + 1, nodes[i].leftOrFirst])
              && |rest| < STACK_SIZE - 1
  {
    if Fits(nodes, rest + [i]) {
      var l := nodes[i].leftOrFirst;
      assert (rest + [i])[|rest|] == i;
      assert Height(nodes, l) < Height(nodes, i) && Height(nodes, l + 1) < Height(nodes, i);
      var s := rest + [l + 1, l];
      forall j | 0 <= j < |s|
        ensures s[j] < |nodes| && j + Height(nodes, s[j]) < STACK_SIZE
      {
        if j < |rest| {
          assert (rest + [i])[j] == rest[j] == s[j];
        }
      }
    }
  }

  // An entered inner node is replaced by its two children; if the stack is too full for
  // them they may be dropped, which cannot happen when the paths are short.
  lemma AccountsExpand(nodes: seq<Record>, faces: seq<Face>, ray: Ray, rest: seq<nat>, i: nat)
    requires WellFormed(nodes, faces) && Accounts(nodes, faces, ray, rest + [i])
    requires i < |nodes| && Enters(ray, nodes[i].box) && nodes[i].rightOrCount == 0
    ensures HasKids(nodes, i)
    ensures Accounts(nodes, faces, ray, rest + [nodes[i].leftOrFirst + 1, nodes[i].leftOrFirst])
    ensures |rest| >= STACK_SIZE - 1 ==> Accounts(nodes, faces, ray, rest)
  {
    hide Pending, HitThrough, Entered, Height, Fits;
    HollowIsShut(ray);
    RestInRange(nodes, rest, i);
    PendingPush(nodes, faces, ray, rest, i);
    PendingKids(nodes, faces, ray, rest, i);
    FitsKids(nodes, rest, i);
    FitsRest(nodes, rest, [i]);
  }

  // The loop over one leaf's triangles.
  method TestLeaf(faces: seq<Face>, ray: Ray, node: Record) returns (hit: bool)
    requires node.leftOrFirst + node.rightOrCount <= |faces|
    ensures hit <==> LeafHit(faces, ray, node)
  {
    for j := 0 to node.rightOrCount
      invariant forall k :: node.leftOrFirst <= k < node.leftOrFirst + j ==> !Hits(ray, faces[k])
    {
      var t := IntersectTri(ray.o, ray.d, faces[node.leftOrFirst + j]);
      if t > 0.0 && t < ray.tMax {
        return true;
      }
    }
    return false;
  }

  // The walk terminates, reads only valid nodes, triangles and stack slots, and never
  // reports a hit that is not there. With paths of at most 31 steps the stack guard
  // drops nothing and the answer is exact.
  method TraceShadow(nodes: seq<Record>, faces: seq<Face>, ray: Ray) returns (r: bool)
    requires WellFormed(nodes, faces)
    ensures r ==> HitThrough(nodes, faces, ray, Entered(nodes, ray), 0)
    ensures Height(nodes, 0) < STACK_SIZE ==>
              (r <==> HitThrough(nodes, faces, ray, Entered(nodes, ray), 0))
  {
    hide Accounts, Height, HitThrough, Entered, SlabAnswer, LeafHit, Weight;
    var stack := new nat[STACK_SIZE](_ => 0);
    var sp := 1;
    stack[0] := 0;
    AccountsStart(nodes, faces, ray);
    assert stack[..1] == [0];

    while sp > 0
      invariant 0 <= sp <= STACK_SIZE
      invariant forall j :: 0 <= j < sp ==> stack[j] < |nodes|
      invariant Accounts(nodes, faces, ray, stack[..sp])
      decreases Weight(|nodes|, stack[..sp])
    {
      assert stack[..sp] == stack[..sp - 1] + [stack[sp - 1]];
      sp := sp - 1;
      var i := stack[sp];
      var node := nodes[i];
      ghost var rest := stack[..sp];
      WeightPush(|nodes|, rest, i);
      if Lt(SlabAnswer(ray, node.box), Fin(0.0)) {
        AccountsDrop(nodes, faces, ray, rest, i);
        continue;
      }

      if node.rightOrCount > 0 {
        var hit := TestLeaf(faces, ray, node);
        if hit {
          AccountsHit(nodes, faces, ray, rest, i);
          return true;
        }
        AccountsDrop(nodes, faces, ray, rest, i);
      } else {
        AccountsExpand(nodes, faces, ray, rest, i);
        ghost var l := node.leftOrFirst;
        KidsWeighLess(|nodes|, rest, i, l);
        if sp < STACK_SIZE - 1 {
          stack[sp] := node.leftOrFirst + 1;
          sp := sp + 1;
          stack[sp] := node.leftOrFirst;
          sp := sp + 1;
          assert stack[..sp] == rest + [l + 1, l];
        }
      }
    }
    assert stack[..0] == [];
    AccountsEnd(nodes, faces, ray);
    return false;
  }

  // -------------------------------------------------------- what the answer means

  // Every box holds the triangles the reader finds below it.
  ghost predicate BoxesHold(nodes: seq<Record>, faces: seq<Face>) {
    forall i, k :: 0 <= i < |nodes| && 0 <= k < |faces| && Path(nodes, AllOpen(nodes), i, k) ==>
      FaceInBox(nodes[i].box, faces[k])
  }

  lemma {:induction false} OpenWider(nodes: seq<Record>, a: seq<bool>, b: seq<bool>, i: nat, k: nat)
    requires i < |nodes| == |a| == |b| && Path(nodes, a, i, k)
    requires forall j :: 0 <= j < |a| && a[j] ==> b[j]
    ensures Path(nodes, b, i, k)
    decreases |nodes| - i
  {
    if HasKids(nodes, i) {
      var l := nodes[i].leftOrFirst;
      if Path(nodes, a, l, k) { OpenWider(nodes, a, b, l, k); }
      if Path(nodes, a, l + 1, k) { OpenWider(nodes, a, b, l + 1, k); }
    }
  }

  // For a triangle that is hit, slab pruning comes down to the sign of t_near.
  lemma {:induction false} PruningIsTheSign(nodes: seq<Record>, faces: seq<Face>, ray: Ray, i: nat, k: nat)
    requires ClearOfAll(nodes, ray) && BoxesHold(nodes, faces) && i < |nodes|
    requires k < |faces| && Hits(ray, faces[k])
    ensures Path(nodes, Entered(nodes, ray), i, k) <==> Path(nodes, Outside(nodes, ray), i, k)
    decreases |nodes| - i
  {
    hide Hits, Enters, StartsInside, FaceInBox, Owns;
    var e, o, all := Entered(nodes, ray), Outside(nodes, ray), AllOpen(nodes);
    if Path(nodes, e, i, k) { OpenWider(nodes, e, all, i, k); }
    if Path(nodes, o, i, k) { OpenWider(nodes, o, all, i, k); }
    if Path(nodes, all, i, k) {
      PruningAdmissible(ray, nodes[i].box, faces[k]);
      assert e[i] <==> o[i];
      if HasKids(nodes, i) {
        PruningIsTheSign(nodes, faces, ray, nodes[i].leftOrFirst, k);
        PruningIsTheSign(nodes, faces, ray, nodes[i].leftOrFirst + 1, k);
      }
    }
  }

  // Exactly when the walk finds something: a hit triangle with a path the ray never
  // starts inside of.
  lemma AnswerIsTheSign(nodes: seq<Record>, faces: seq<Face>, ray: Ray)
    requires ClearOfAll(nodes, ray) && WellFormed(nodes, faces) && BoxesHold(nodes, faces)
    ensures HitThrough(nodes, faces, ray, Entered(nodes, ray), 0)
       <==> HitThrough(nodes, faces, ray, Outside(nodes, ray), 0)
  {
    forall k: nat | k < |faces| && Hits(ray, faces[k])
      ensures Path(nodes, Entered(nodes, ray), 0, k) <==> Path(nodes, Outside(nodes, ray), 0, k)
    {
      PruningIsTheSign(nodes, faces, ray, 0, k);
    }
  }

  lemma {:induction false} EnteredAll(nodes: seq<Record>, faces: seq<Face>, ray: Ray, i: nat, k: nat)
    requires ClearOfAll(nodes, ray) && BoxesHold(nodes, faces) && i < |nodes|
    requires forall j :: 0 <= j < |nodes| && MeetsBox(ray, nodes[j].box) ==> !StartsInside(ray, nodes[j].box)
    requires k < |faces| && Hits(ray, faces[k]) && Path(nodes, AllOpen(nodes), i, k)
    ensures Path(nodes, Entered(nodes, ray), i, k)
    decreases |nodes| - i
  {
    hide Hits, Enters, StartsInside, MeetsBox, FaceInBox, Owns;
    var all, l := AllOpen(nodes), nodes[i].leftOrFirst;
    PruningAdmissible(ray, nodes[i].box, faces[k]);
    if HasKids(nodes, i) {
      if Path(nodes, all, l, k) { EnteredAll(nodes, faces, ray, l, k); }
      if Path(nodes, all, l + 1, k) { EnteredAll(nodes, faces, ray, l + 1, k); }
    }
  }

  // Completeness: if the ray starts inside none of the boxes it meets, the walk answers
  // the brute-force question over every triangle in the reader's tree.
  lemma CompleteFromOutside(nodes: seq<Record>, faces: seq<Face>, ray: Ray, i: nat)
    requires ClearOfAll(nodes, ray) && WellFormed(nodes, faces) && BoxesHold(nodes, faces) && i < |nodes|
    requires forall j :: 0 <= j < |nodes| && MeetsBox(ray, nodes[j].box) ==> !StartsInside(ray, nodes[j].box)
    ensures HitThrough(nodes, faces, ray, Entered(nodes, ray), i)
       <==> HitThrough(nodes, faces, ray, AllOpen(nodes), i)
  {
    forall k: nat | k < |faces| && Hits(ray, faces[k])
      ensures Path(nodes, Entered(nodes, ray), i, k) <==> Path(nodes, AllOpen(nodes), i, k)
    {
      if Path(nodes, Entered(nodes, ray), i, k) {
        OpenWider(nodes, Entered(nodes, ray), AllOpen(nodes), i, k);
      }
      if Path(nodes, AllOpen(nodes), i, k) {
        EnteredAll(nodes, faces, ray, i, k);
      }
    }
  }
}
