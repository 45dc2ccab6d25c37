// The builder and the shader together. The builder puts a right child after the whole
// left subtree; the reader looks for it right after the left child's record.
module ShadowQuery {
  import opened Geometry
  import opened Rays
  import opened BvhTree
  import opened BvhLayout
  import opened BvhBuilder
  import opened ShadowTrace
  import opened SlabTest

  function FacesOf(tris: seq<Tri>): (f: seq<Face>)
    ensures |f| == |tris|
  {
    seq(|tris|, i requires 0 <= i < |tris| => tris[i].Face())
  }

  // ------------------------------------------- what the reader finds in a held tree

  // The reader goes wrong at the first inner node whose left child is inner: from there
  // it never leaves the left subtree.
  function ReadCount(t: Tree): nat {
    if t.Leaf? then |t.tris|
    else if t.left.Leaf? then |t.left.tris| + ReadCount(t.right)
    else ReadCount(t.left)
  }

  // How many records of the preorder array it can reach.
  function ReadRecords(t: Tree): nat {
    if t.Leaf? then 1
    else if t.left.Leaf? then 2 + ReadRecords(t.right)
    else 1 + ReadRecords(t.left)
  }

  lemma {:induction false} ReadWithin(t: Tree)
    ensures ReadCount(t) <= Count(t) && 1 <= ReadRecords(t) <= Size(t)
    ensures RightNextToLeft(t) ==> ReadCount(t) == Count(t) && ReadRecords(t) == Size(t)
    decreases t
  {
    if t.Inner? {
      ReadWithin(t.left);
      ReadWithin(t.right);
    }
  }

  lemma HeldKids(nodes: seq<Record>, tris: seq<Tri>, t: Tree, at: nat, first: nat)
    requires Holds(nodes, tris, t, at, first) && NoEmptyLeaf(t)
    ensures HasKids(nodes, at) <==> t.Inner?
    ensures t.Inner? ==> nodes[at].leftOrFirst == at + 1
  {
    HoldsRange(nodes, tris, t, at, first);
    if t.Inner? {
      ReadWithin(t.left);
      ReadWithin(t.right);
    }
  }

  // Below a held tree the reader finds exactly the first ReadCount triangles.
  lemma {:induction false} ReaderFinds(nodes: seq<Record>, tris: seq<Tri>, t: Tree, at: nat, first: nat, k: nat)
    requires Holds(nodes, tris, t, at, first) && NoEmptyLeaf(t)
    ensures Path(nodes, AllOpen(nodes), at, k) <==> first <= k < first + ReadCount(t)
    decreases t
  {
    HeldKids(nodes, tris, t, at, first);
    if t.Inner? {
      ReaderFinds(nodes, tris, t.left, at + 1, first, k);
      if t.left.Leaf? {
        ReaderFinds(nodes, tris, t.right, at + 2, first + Count(t.left), k);
      } else {
        HeldKids(nodes, tris, t.left, at + 1, first);
        assert Holds(nodes, tris, t.left.left, at + 2, first);
      }
    }
  }

  // Its paths are no longer than the tree is deep.
  lemma {:induction false} ReaderHeight(nodes: seq<Record>, tris: seq<Tri>, t: Tree, at: nat, first: nat)
    requires Holds(nodes, tris, t, at, first) && NoEmptyLeaf(t)
    ensures Height(nodes, at) <= Depth(t)
    decreases t
  {
    HeldKids(nodes, tris, t, at, first);
    if t.Inner? {
      ReaderHeight(nodes, tris, t.left, at + 1, first);
      HeldKids(nodes, tris, t.left, at + 1, first);
      if t.left.Leaf? {
        ReaderHeight(nodes, tris, t.right, at + 2, first + Count(t.left));
      } else {
        assert Height(nodes, at + 2) < Height(nodes, at + 1);
      }
    }
  }

  // Node to leads the reader to node j.
  predicate Reaches(nodes: seq<Record>, i: nat, j: nat)
    requires i < |nodes|
    decreases |nodes| - i
  {
    || i == j
    || (HasKids(nodes, i)
        && (Reaches(nodes, nodes[i].leftOrFirst, j) || Reaches(nodes, nodes[i].leftOrFirst + 1, j)))
  }

  // The reachable records are a prefix of the preorder that ends with the first two
  // consecutive leaves.
  lemma {:induction false} ReaderPrefix(nodes: seq<Record>, tris: seq<Tri>, t: Tree, at: nat, first: nat, j: nat)
    requires Holds(nodes, tris, t, at, first) && NoEmptyLeaf(t)
    ensures Reaches(nodes, at, j) <==> at <= j < at + ReadRecords(t)
    decreases t
  {
    HeldKids(nodes, tris, t, at, first);
    if t.Inner? {
      ReaderPrefix(nodes, tris, t.left, at + 1, first, j);
      if t.left.Leaf? {
        ReaderPrefix(nodes, tris, t.right, at + 2, first + Count(t.left), j);
      } else {
        HeldKids(nodes, tris, t.left, at + 1, first);
      }
    }
  }

  ghost predicate LeafPair(nodes: seq<Record>, j: nat) {
    j + 1 < |nodes| && nodes[j].rightOrCount > 0 && nodes[j + 1].rightOrCount > 0
  }

  lemma {:induction false} PrefixEndsAtLeafPair(nodes: seq<Record>, tris: seq<Tri>, t: Tree, at: nat, first: nat)
    requires Holds(nodes, tris, t, at, first) && NoEmptyLeaf(t) && t.Inner?
    ensures ReadRecords(t) >= 3 && LeafPair(nodes, at + ReadRecords(t) - 2)
    ensures forall j :: at <= j < at + ReadRecords(t) - 2 ==> !LeafPair(nodes, j)
    decreases t
  {
    HeldKids(nodes, tris, t, at, first);
    HeldKids(nodes, tris, t.left, at + 1, first);
    if t.left.Leaf? {
      HeldKids(nodes, tris, t.right, at + 2, first + Count(t.left));
      if t.right.Inner? {
        PrefixEndsAtLeafPair(nodes, tris, t.right, at + 2, first + Count(t.left));
      }
    } else {
      PrefixEndsAtLeafPair(nodes, tris, t.left, at + 1, first);
    }
  }

  // ------------------------------------------------------------- on a built scene

  // Halving until at most nine are left.
  function Readable(n: nat): (r: nat)
    ensures r <= 9 && r <= n
    ensures n >= 10 ==> r <= n / 2
  {
    if n <= 9 then n else Readable(n / 2)
  }

  lemma {:induction false} BuiltReadCount(tris: seq<Tri>)
    ensures ReadCount(BuildTree(tris)) == Readable(|tris|)
    decreases |tris|
  {
    if |tris| > MAX_LEAF_SIZE {
      var s := SortBy(tris, LongestAxis(Bounds(tris)));
      BuiltReadCount(s[..|s| / 2]);
      BuiltReadCount(s[|s| / 2..]);
    }
  }

  // However large the scene, the shader can test at most its first nine ordered
  // triangles; it can test all of them exactly when there are at most nine.
  lemma {:induction false} ReaderTestsAtMostNine(nodes: seq<Record>, ordered: seq<Tri>, scene: seq<Tri>, k: nat)
    requires scene != [] && BuiltFrom(nodes, ordered, scene)
    ensures nodes != []
    ensures Path(nodes, AllOpen(nodes), 0, k) <==> k < Readable(|scene|)
  {
    BuiltHolds(nodes, ordered, scene);
    BuildHasNoEmptyLeaf(scene);
    ReaderFinds(nodes, ordered, BuildTree(scene), 0, 0, k);
    BuiltReadCount(scene);
  }

  // From ten triangles on, nothing of the root's right half is ever tested.
  lemma {:induction false} RightHalfNeverTested(nodes: seq<Record>, ordered: seq<Tri>, scene: seq<Tri>, k: nat)
    requires |scene| >= 10 && BuiltFrom(nodes, ordered, scene)
    requires |scene| / 2 <= k
    ensures nodes != [] && !Path(nodes, AllOpen(nodes), 0, k)
    ensures Count(BuildTree(scene).left) == |scene| / 2
  {
    ReaderTestsAtMostNine(nodes, ordered, scene, k);
    Split(scene);
    var s := SortBy(scene, LongestAxis(Bounds(scene)));
    BuildPermutes(s[..|s| / 2]);
  }

  lemma BuiltSubtree(nodes: seq<Record>, ordered: seq<Tri>, scene: seq<Tri>, i: nat)
    requires scene != [] && BuiltFrom(nodes, ordered, scene) && i < |nodes|
    ensures i < Size(BuildTree(scene))
    ensures var t := SubtreeAt(BuildTree(scene), i);
            && Holds(nodes, ordered, t, i, FirstAt(BuildTree(scene), i)) && NoEmptyLeaf(t) && TightTree(t)
  {
    hide *;
    BuiltHolds(nodes, ordered, scene);
    BuildHasNoEmptyLeaf(scene);
    BuildIsTight(scene);
    HoldsSubtree(nodes, ordered, BuildTree(scene), 0, 0, i);
    SubtreeKeeps(BuildTree(scene), i);
  }

  lemma HeldRecord(nodes: seq<Record>, tris: seq<Tri>, t: Tree, at: nat, first: nat)
    requires Holds(nodes, tris, t, at, first) && NoEmptyLeaf(t)
    ensures at < |nodes|
    ensures if nodes[at].rightOrCount > 0 then nodes[at].leftOrFirst + nodes[at].rightOrCount <= |tris|
            else HasKids(nodes, at)
  {
    HeldKids(nodes, tris, t, at, first);
  }

  lemma BuiltIsWellFormed(nodes: seq<Record>, ordered: seq<Tri>, scene: seq<Tri>)
    requires BuiltFrom(nodes, ordered, scene)
    ensures WellFormed(nodes, FacesOf(ordered))
  {
    if scene == [] {
      assert nodes[0] == Record(Bounds([]), 0, 0);
    } else {
      hide BuiltFrom, BuildTree, SubtreeAt, FirstAt, TightTree, Holds, NoEmptyLeaf;
      forall i: nat | i < |nodes|
        ensures if nodes[i].rightOrCount > 0 then nodes[i].leftOrFirst + nodes[i].rightOrCount <= |ordered|
                else HasKids(nodes, i)
      {
        BuiltSubtree(nodes, ordered, scene, i);
        HeldRecord(nodes, ordered, SubtreeAt(BuildTree(scene), i), i, FirstAt(BuildTree(scene), i));
      }
      BuiltHolds(nodes, ordered, scene);
    }
  }

  lemma HeldBoxHolds(nodes: seq<Record>, tris: seq<Tri>, t: Tree, at: nat, first: nat, k: nat)
    requires Holds(nodes, tris, t, at, first) && NoEmptyLeaf(t) && TightTree(t)
    requires k < |tris| && Path(nodes, AllOpen(nodes), at, k)
    ensures FaceInBox(nodes[at].box, tris[k].Face())
  {
    ReaderFinds(nodes, tris, t, at, first, k);
    ReadWithin(t);
    HoldsRange(nodes, tris, t, at, first);
    assert tris[k] == tris[first..first + Count(t)][k - first];
    assert tris[k] in Ordered(t);
  }

  lemma BuiltBoxesHold(nodes: seq<Record>, ordered: seq<Tri>, scene: seq<Tri>)
    requires scene != [] && BuiltFrom(nodes, ordered, scene)
    ensures BoxesHold(nodes, FacesOf(ordered))
  {
    hide BuiltFrom, BuildTree, SubtreeAt, FirstAt, TightTree, Holds, NoEmptyLeaf, FaceInBox, Path;
    forall i: nat, k: nat | i < |nodes| && k < |ordered| && Path(nodes, AllOpen(nodes), i, k)
      ensures FaceInBox(nodes[i].box, FacesOf(ordered)[k])
    {
      BuiltSubtree(nodes, ordered, scene, i);
      HeldBoxHolds(nodes, ordered, SubtreeAt(BuildTree(scene), i), i, FirstAt(BuildTree(scene), i), k);
    }
  }

  // Up to 2^33 triangles no reader's path exceeds 31 steps, so the 32-entry stack is enough.
  lemma BuiltIsShallow(nodes: seq<Record>, ordered: seq<Tri>, scene: seq<Tri>)
    requires BuiltFrom(nodes, ordered, scene) && |scene| <= MAX_LEAF_SIZE * Pow2(STACK_SIZE - 1)
    ensures nodes != [] && Height(nodes, 0) < STACK_SIZE
  {
    BuiltHolds(nodes, ordered, scene);
    DepthIsLogarithmic(scene, STACK_SIZE - 1);
    if scene != [] {
      BuildHasNoEmptyLeaf(scene);
      ReaderHeight(nodes, ordered, BuildTree(scene), 0, 0);
    }
  }

  // Some triangle of the scene is hit within range.
  ghost predicate SceneHit(scene: seq<Tri>, ray: Ray) {
    exists t :: t in scene && Hits(ray, t.Face())
  }

  lemma OrderedHitIsSceneHit(nodes: seq<Record>, ordered: seq<Tri>, scene: seq<Tri>, ray: Ray)
    requires BuiltFrom(nodes, ordered, scene)
    ensures SceneHit(scene, ray) <==> exists k :: 0 <= k < |ordered| && Hits(ray, FacesOf(ordered)[k])
  {
    BuildPermutes(scene);
    SameElements(ordered, scene);
    var faces := FacesOf(ordered);
    if SceneHit(scene, ray) {
      var t :| t in scene && Hits(ray, t.Face());
      assert t in ordered;
      var k :| 0 <= k < |ordered| && ordered[k] == t;
      assert Hits(ray, faces[k]);
    }
    if k :| 0 <= k < |ordered| && Hits(ray, faces[k]) {
      assert ordered[k] in scene;
    }
  }

  // Some triangle the reader can reach is hit within range.
  ghost predicate ReadableHit(ordered: seq<Tri>, ray: Ray) {
    exists k :: 0 <= k < Readable(|ordered|) && Hits(ray, ordered[k].Face())
  }

  lemma NineIsShallow(nodes: seq<Record>, ordered: seq<Tri>, scene: seq<Tri>)
    requires BuiltFrom(nodes, ordered, scene) && |scene| <= 9
    ensures nodes != [] && Height(nodes, 0) < STACK_SIZE
  {
    Pow2Monotone(2, STACK_SIZE - 1);
    assert Pow2(2) == 4;
    BuiltIsShallow(nodes, ordered, scene);
  }

  // ------------------------------------------------- boxes in the scene's bounds

  ghost predicate OutsideMetBoxes(nodes: seq<Record>, ray: Ray) {
    forall j :: 0 <= j < |nodes| && MeetsBox(ray, nodes[j].box) ==> !StartsInside(ray, nodes[j].box)
  }

  lemma PointWithin(a: Box, b: Box, p: Vec3)
    requires BoxWithin(a, b)
    ensures InBox(a, p) ==> InBox(b, p)
  {
  }

  lemma TightUpright(a: Box, s: seq<Tri>, i: Axis)
    requires IsTight(a, s) && s != []
    ensures Le(a.lo.At(i), a.hi.At(i))
  {
    CornerInside(a, s[0].Face(), 0, i);
  }

  lemma TightWithin(a: Box, s: seq<Tri>, b: Box, t: seq<Tri>)
    requires IsTight(a, s) && IsTight(b, t) && s != []
    requires forall x :: x in s ==> x in t
    ensures Upright(a) && BoxWithin(a, b)
  {
    hide IsTight;
    forall i: Axis
      ensures Le(a.lo.At(i), a.hi.At(i)) && Le(b.lo.At(i), a.lo.At(i)) && Le(a.hi.At(i), b.hi.At(i))
    {
      TightFaces(a, s, b, t, i);
      TightUpright(a, s, i);
    }
  }

  lemma BoxInScene(nodes: seq<Record>, ordered: seq<Tri>, scene: seq<Tri>, j: nat)
    requires scene != [] && BuiltFrom(nodes, ordered, scene) && j < |nodes|
    ensures Upright(nodes[j].box) && BoxWithin(nodes[j].box, Bounds(scene))
  {
    hide BuiltFrom, BuildTree, Bounds, IsTight, SubtreeAt, FirstAt, Size, Count, BoxWithin, Upright;
    var t := BuildTree(scene);
    BuiltSubtree(nodes, ordered, scene, j);
    NodeDescribesRun(nodes, ordered, scene, j);
    BuiltCounts(nodes, ordered, scene);
    BoundsAreTight(scene);
    SameElements(ordered, scene);
    var run := ordered[FirstAt(t, j)..FirstAt(t, j) + Count(SubtreeAt(t, j))];
    TightWithin(nodes[j].box, run, Bounds(scene), scene);
  }

  // A ray that starts outside the scene's bounds starts outside every box it meets.
  lemma OutsideScene(nodes: seq<Record>, ordered: seq<Tri>, scene: seq<Tri>, ray: Ray)
    requires scene != [] && BuiltFrom(nodes, ordered, scene)
    requires ClearOfAll(nodes, ray) && ray.tMax >= 0.0 && !InBox(Bounds(scene), ray.o)
    ensures OutsideMetBoxes(nodes, ray)
  {
    hide BuiltFrom, BuildTree, Bounds, Enters, MeetsBox, StartsInside, PastEntry, IsTight, InBox, Upright, BoxWithin;
    forall j | 0 <= j < |nodes| && MeetsBox(ray, nodes[j].box)
      ensures !StartsInside(ray, nodes[j].box)
    {
      BoxInScene(nodes, ordered, scene, j);
      PointWithin(nodes[j].box, Bounds(scene), ray.o);
      MissedIffOriginInside(ray, nodes[j].box);
      EntersIffMeetsFromOutside(ray, nodes[j].box);
    }
  }

  lemma BoundsUpright(scene: seq<Tri>)
    requires scene != []
    ensures Upright(Bounds(scene))
  {
    hide Bounds, IsTight;
    BoundsAreTight(scene);
    forall i: Axis
      ensures Le(Bounds(scene).lo.At(i), Bounds(scene).hi.At(i))
    {
      TightUpright(Bounds(scene), scene, i);
    }
  }

  // Past the entry faces of a box is past those of any box around it.
  lemma StartsInsideWithin(ray: Ray, a: Box, b: Box)
    requires Clear(ray, a) && Clear(ray, b) && Upright(a) && Upright(b) && BoxWithin(a, b)
    ensures StartsInside(ray, a) ==> StartsInside(ray, b)
  {
    hide StartsInside, Clear;
    StartsInsideIffPastEntry(ray, a);
    StartsInsideIffPastEntry(ray, b);
    if PastEntry(ray, a) {
      forall i: Axis
        ensures PastFace(ray, b, i)
      {
        assert PastFace(ray, a, i);
      }
    }
  }

  lemma RootBox(nodes: seq<Record>, ordered: seq<Tri>, scene: seq<Tri>)
    requires BuiltFrom(nodes, ordered, scene)
    ensures nodes != [] && nodes[0].box == Bounds(scene)
  {
    hide Bounds;
  }

  // The scene's bounds alone decide where the sign of t_near shuts the reader out.
  lemma {:induction false} SignAtTheRoot(nodes: seq<Record>, ordered: seq<Tri>, scene: seq<Tri>, ray: Ray, k: nat)
    requires scene != [] && BuiltFrom(nodes, ordered, scene) && ClearOfAll(nodes, ray)
    ensures nodes != []
    ensures Path(nodes, Outside(nodes, ray), 0, k) <==> !StartsInside(ray, Bounds(scene)) && k < Readable(|scene|)
  {
    hide BuiltFrom, BuildTree, Bounds, StartsInside, Upright, BoxWithin;
    RootBox(nodes, ordered, scene);
    if !StartsInside(ray, Bounds(scene)) {
      BoundsUpright(scene);
      forall j | 0 <= j < |nodes|
        ensures Outside(nodes, ray)[j]
      {
        BoxInScene(nodes, ordered, scene, j);
        StartsInsideWithin(ray, nodes[j].box, Bounds(scene));
      }
      assert Outside(nodes, ray) == AllOpen(nodes);
      ReaderTestsAtMostNine(nodes, ordered, scene, k);
    } else {
      assert !Outside(nodes, ray)[0];
    }
  }

  // -------------------------------------------------------- what the answer is worth

  // Exactly what the walk finds on the builder's output: a readable triangle, unless the
  // ray starts past the entry faces of the scene's bounds.
  lemma {:induction false} AnswerOnScene(nodes: seq<Record>, ordered: seq<Tri>, scene: seq<Tri>, ray: Ray)
    requires BuiltFrom(nodes, ordered, scene) && ClearOfAll(nodes, ray)
    ensures nodes != []
    ensures HitThrough(nodes, FacesOf(ordered), ray, Entered(nodes, ray), 0)
       <==> !StartsInside(ray, Bounds(scene)) && ReadableHit(ordered, ray)
  {
    hide BuildTree, Bounds, StartsInside, Hits, Path, BuiltFrom, Readable;
    var faces := FacesOf(ordered);
    RootBox(nodes, ordered, scene);
    BuiltCounts(nodes, ordered, scene);
    if scene != [] {
      BuiltIsWellFormed(nodes, ordered, scene);
      BuiltBoxesHold(nodes, ordered, scene);
      AnswerIsTheSign(nodes, faces, ray);
      forall k: nat | k < |faces|
        ensures Path(nodes, Outside(nodes, ray), 0, k) <==> !StartsInside(ray, Bounds(scene)) && k < Readable(|scene|)
      {
        SignAtTheRoot(nodes, ordered, scene, ray, k);
      }
      if !StartsInside(ray, Bounds(scene)) && ReadableHit(ordered, ray) {
        var k :| 0 <= k < Readable(|ordered|) && Hits(ray, ordered[k].Face());
        assert Hits(ray, faces[k]);
      }
    }
  }

  // A readable hit is a hit; up to nine triangles all are readable.
  lemma ReadableIsScene(nodes: seq<Record>, ordered: seq<Tri>, scene: seq<Tri>, ray: Ray)
    requires BuiltFrom(nodes, ordered, scene)
    ensures ReadableHit(ordered, ray) ==> SceneHit(scene, ray)
    ensures |scene| <= 9 && SceneHit(scene, ray) ==> ReadableHit(ordered, ray)
  {
    hide BuildTree, Hits;
    BuiltCounts(nodes, ordered, scene);
    OrderedHitIsSceneHit(nodes, ordered, scene, ray);
    var faces := FacesOf(ordered);
    if ReadableHit(ordered, ray) {
      var k :| 0 <= k < Readable(|ordered|) && Hits(ray, ordered[k].Face());
      assert Hits(ray, faces[k]);
    }
  }

  lemma CornersInTight(b: Box, tris: seq<Tri>, t: Tri)
    requires IsTight(b, tris) && t in tris
    ensures FaceInBox(b, t.Face())
  {
  }

  // A ray that hits the scene and starts off its bounds has not passed the entry faces.
  lemma HitFromOutside(scene: seq<Tri>, ray: Ray)
    requires Clear(ray, Bounds(scene)) && SceneHit(scene, ray) && !InBox(Bounds(scene), ray.o)
    ensures !StartsInside(ray, Bounds(scene))
  {
    hide Bounds, StartsInside, MeetsBox, Enters, InBox, IsTight, PastEntry, Upright;
    var t :| t in scene && Hits(ray, t.Face());
    BoundsUpright(scene);
    BoundsAreTight(scene);
    CornersInTight(Bounds(scene), scene, t);
    PruningAdmissible(ray, Bounds(scene), t.Face());
    MissedIffOriginInside(ray, Bounds(scene));
  }

  // Where no corner of the scene is level with the ray on an axis it does not move on, no
  // face of a node box is in line with it.
  ghost predicate OffCorners(scene: seq<Tri>, ray: Ray) {
    forall t, k: Axis, i: Axis :: t in scene && ray.d.At(i) == 0.0 ==> t.Face().Corner(k).At(i) != ray.o.At(i)
  }

  lemma TightIsClear(b: Box, tris: seq<Tri>, ray: Ray)
    requires IsTight(b, tris) && tris != [] && OffCorners(tris, ray)
    ensures Clear(ray, b)
  {
    forall i: Axis | ray.d.At(i) == 0.0
      ensures b.lo.At(i) != Fin(ray.o.At(i)) && b.hi.At(i) != Fin(ray.o.At(i))
    {
      assert Attained(tris, i, b.lo.At(i)) && Attained(tris, i, b.hi.At(i));
    }
  }

  lemma HollowIsClear(nodes: seq<Record>, ordered: seq<Tri>, ray: Ray)
    requires BuiltFrom(nodes, ordered, [])
    ensures ClearOfAll(nodes, ray)
  {
    assert nodes == [Record(Bounds([]), 0, 0)];
    assert forall i: Axis :: Bounds([]).lo.At(i) == PosInf && Bounds([]).hi.At(i) == NegInf;
  }

  lemma OffCornersIsClear(nodes: seq<Record>, ordered: seq<Tri>, scene: seq<Tri>, ray: Ray)
    requires BuiltFrom(nodes, ordered, scene) && OffCorners(scene, ray)
    ensures ClearOfAll(nodes, ray)
  {
    hide BuiltFrom, BuildTree, Bounds, IsTight, SubtreeAt, FirstAt, Size, Count, Clear;
    var t := BuildTree(scene);
    if scene == [] {
      HollowIsClear(nodes, ordered, ray);
    } else {
      forall j: nat | j < |nodes|
        ensures Clear(ray, nodes[j].box)
      {
        BuiltSubtree(nodes, ordered, scene, j);
        NodeDescribesRun(nodes, ordered, scene, j);
        BuiltCounts(nodes, ordered, scene);
        SameElements(ordered, scene);
        TightIsClear(nodes[j].box, ordered[FirstAt(t, j)..FirstAt(t, j) + Count(SubtreeAt(t, j))], ray);
      }
    }
  }

  // Whatever the slab test answers, the walk reports nothing but readable hits.
  lemma {:induction false} FoundIsReadable(nodes: seq<Record>, ordered: seq<Tri>, scene: seq<Tri>, ray: Ray)
    requires BuiltFrom(nodes, ordered, scene) && nodes != []
    requires HitThrough(nodes, FacesOf(ordered), ray, Entered(nodes, ray), 0)
    ensures ReadableHit(ordered, ray) && SceneHit(scene, ray)
  {
    hide BuildTree, Bounds, Hits, Path, BuiltFrom, Readable;
    var faces := FacesOf(ordered);
    var k: nat :| k < |faces| && Hits(ray, faces[k]) && Path(nodes, Entered(nodes, ray), 0, k);
    BuiltCounts(nodes, ordered, scene);
    OpenWider(nodes, Entered(nodes, ray), AllOpen(nodes), 0, k);
    ReaderTestsAtMostNine(nodes, ordered, scene, k);
    assert Hits(ray, ordered[k].Face());
    ReadableIsScene(nodes, ordered, scene, ray);
  }

  // What the answer is exactly, for a ray in line with no face of a node box.
  ghost predicate Exact(shadowed: bool, ordered: seq<Tri>, scene: seq<Tri>, ray: Ray) {
    // a readable hit, unless the ray starts past the entry faces of the bounds
    && (shadowed <==> !StartsInside(ray, Bounds(scene)) && ReadableHit(ordered, ray))
    // so it is right just when a hit is readable and the ray starts before those faces
    && ((shadowed <==> SceneHit(scene, ray))
        <==> (SceneHit(scene, ray) ==> !StartsInside(ray, Bounds(scene)) && ReadableHit(ordered, ray)))
    // up to nine triangles only the start matters
    && (|scene| <= 9 ==> (shadowed <==> !StartsInside(ray, Bounds(scene)) && SceneHit(scene, ray)))
    && (|scene| <= 9 && !InBox(Bounds(scene), ray.o) ==> (shadowed <==> SceneHit(scene, ray)))
  }

  lemma AnswerIsExact(nodes: seq<Record>, ordered: seq<Tri>, scene: seq<Tri>, ray: Ray, shadowed: bool)
    requires BuiltFrom(nodes, ordered, scene) && ClearOfAll(nodes, ray) && nodes != []
    requires shadowed <==> HitThrough(nodes, FacesOf(ordered), ray, Entered(nodes, ray), 0)
    ensures Exact(shadowed, ordered, scene, ray)
  {
    hide BuiltFrom, Bounds, StartsInside, InBox, ReadableHit, SceneHit, HitThrough, Clear;
    AnswerOnScene(nodes, ordered, scene, ray);
    ReadableIsScene(nodes, ordered, scene, ray);
    RootBox(nodes, ordered, scene);
    if SceneHit(scene, ray) && !InBox(Bounds(scene), ray.o) {
      HitFromOutside(scene, ray);
    }
  }

  // The shader run on the builder's output, with the exact meaning of its answer.
  method Shadow(nodes: seq<Record>, faces: seq<Face>, ray: Ray, ghost ordered: seq<Tri>, ghost scene: seq<Tri>)
    returns (shadowed: bool)
    requires BuiltFrom(nodes, ordered, scene) && faces == FacesOf(ordered)
    // it never reports a shadow that no readable triangle of the scene casts
    ensures shadowed ==> ReadableHit(ordered, ray) && SceneHit(scene, ray)
    ensures ClearOfAll(nodes, ray) && |scene| <= MAX_LEAF_SIZE * Pow2(STACK_SIZE - 1) ==>
              Exact(shadowed, ordered, scene, ray)
    ensures ClearOfAll(nodes, ray) && |scene| <= 9 ==> Exact(shadowed, ordered, scene, ray)
  {
    hide BuiltFrom, ReadableHit, SceneHit, HitThrough, Height, Pow2, Exact, ClearOfAll, Readable;
    BuiltIsWellFormed(nodes, ordered, scene);
    if |scene| <= MAX_LEAF_SIZE * Pow2(STACK_SIZE - 1) {
      BuiltIsShallow(nodes, ordered, scene);
    }
    if |scene| <= 9 {
      NineIsShallow(nodes, ordered, scene);
    }
    shadowed := TraceShadow(nodes, faces, ray);
    if shadowed {
      FoundIsReadable(nodes, ordered, scene, ray);
    }
    if ClearOfAll(nodes, ray) && Height(nodes, 0) < STACK_SIZE {
      AnswerIsExact(nodes, ordered, scene, ray, shadowed);
    }
  }

  lemma DecodedIsBuilt(words: seq<Word>, reals: seq<real>, t: Tree)
    requires Reads(words, reals, Flatten(t, 0, 0), Ordered(t))
    ensures DecodeNodes(words, Size(t)) == Flatten(t, 0, 0)
    ensures DecodeFaces(reals, Count(t)) == FacesOf(Ordered(t))
  {
  }

  lemma {:induction false} LeavesAtMost(t: Tree)
    requires NoEmptyLeaf(t)
    ensures Leaves(t) <= Count(t)
    decreases t
  {
    if t.Inner? {
      LeavesAtMost(t.left);
      LeavesAtMost(t.right);
    }
  }

  lemma {:induction false} Pow2Sum(a: nat, b: nat)
    ensures Pow2(a + b) == Pow2(a) * Pow2(b)
    decreases a
  {
    if a > 0 {
      Pow2Sum(a - 1, b);
      assert 2 * Pow2(a - 1) * Pow2(b) == 2 * (Pow2(a - 1) * Pow2(b));
    }
  }

  lemma WordsFitStack()
    ensures TWO32 / 4 <= MAX_LEAF_SIZE * Pow2(STACK_SIZE - 1)
  {
    assert Pow2(7) == 128;
    hide Pow2;
    Pow2Sum(7, 7);
    Pow2Sum(14, 14);
    Pow2Monotone(28, STACK_SIZE - 1);
  }

  // Such a scene's record numbers fit in a word, and its paths on the stack.
  lemma NodeCountFits(scene: seq<Tri>)
    requires |scene| <= TWO32 / 4
    ensures 2 * Leaves(BuildTree(scene)) - 1 < TWO32
    ensures |scene| <= MAX_LEAF_SIZE * Pow2(STACK_SIZE - 1)
  {
    hide Pow2, Bounds;
    if scene != [] {
      BuildHasNoEmptyLeaf(scene);
      BuildPermutes(scene);
      LeavesAtMost(BuildTree(scene));
    }
    WordsFitStack();
  }

  // f has the coordinates that the mesh gives its triangle i.
  ghost predicate IsFace(vertices: seq<real>, indices: seq<nat>, i: nat, f: Face)
    requires IndicesInRange(vertices, indices) && i < |indices| / 3
  {
    forall k: Axis, m: Axis :: f.Corner(k).At(m) == vertices[3 * indices[3 * i + k] + m]
  }

  // The ray meets some triangle of the mesh, not along its plane, within range.
  ghost predicate MeshHit(vertices: seq<real>, indices: seq<nat>, ray: Ray)
    requires IndicesInRange(vertices, indices)
  {
    exists i: nat, f: Face, t: real :: i < |indices| / 3 && IsFace(vertices, indices, i, f)
      && 0.00001 < t < ray.tMax && Transversal(ray.d, f) && Meets(ray, f, t)
  }

  lemma SceneFace(vertices: seq<real>, indices: seq<nat>, i: nat)
    requires IndicesInRange(vertices, indices) && i < |indices| / 3
    ensures IsFace(vertices, indices, i, Scene(vertices, indices)[i].Face())
  {
    hide Scene;
    forall k: Axis, m: Axis
      ensures Scene(vertices, indices)[i].Face().Corner(k).At(m) == vertices[3 * indices[3 * i + k] + m]
    {
      SceneReads(vertices, indices, i, k, m);
    }
  }

  lemma SamePoint(p: Vec3, q: Vec3)
    requires forall m: Axis :: p.At(m) == q.At(m)
    ensures p == q
  {
    assert p.At(0) == q.At(0) && p.At(1) == q.At(1) && p.At(2) == q.At(2);
  }

  lemma FaceIsOne(vertices: seq<real>, indices: seq<nat>, i: nat, f: Face, g: Face)
    requires IndicesInRange(vertices, indices) && i < |indices| / 3
    requires IsFace(vertices, indices, i, f) && IsFace(vertices, indices, i, g)
    ensures f == g
  {
    forall k: Axis
      ensures f.Corner(k) == g.Corner(k)
    {
      assert forall m: Axis :: f.Corner(k).At(m) == g.Corner(k).At(m);
      SamePoint(f.Corner(k), g.Corner(k));
    }
    assert f.Corner(0) == g.Corner(0) && f.Corner(1) == g.Corner(1) && f.Corner(2) == g.Corner(2);
  }

  // Hitting the scene is hitting a triangle of the mesh.
  lemma SceneHitIsMeshHit(vertices: seq<real>, indices: seq<nat>, ray: Ray)
    requires IndicesInRange(vertices, indices)
    ensures SceneHit(Scene(vertices, indices), ray) <==> MeshHit(vertices, indices, ray)
  {
    hide Scene, IsFace, Hits, Meets, Transversal;
    var scene := Scene(vertices, indices);
    if SceneHit(scene, ray) {
      var t :| t in scene && Hits(ray, t.Face());
      var i :| 0 <= i < |scene| && scene[i] == t;
      SceneFace(vertices, indices, i);
      HitsIffMeets(ray, t.Face());
    }
    if MeshHit(vertices, indices, ray) {
      var i: nat, f: Face, t: real :| i < |indices| / 3 && IsFace(vertices, indices, i, f)
        && 0.00001 < t < ray.tMax && Transversal(ray.d, f) && Meets(ray, f, t);
      HitsIffMeets(ray, f);
      SceneFace(vertices, indices, i);
      FaceIsOne(vertices, indices, i, f, scene[i].Face());
      assert scene[i] in scene;
    }
  }

  // Mesh in, answer out: build, pack, read the packed words back as the shader does, walk.
  method CastShadow(vertices: seq<real>, indices: seq<nat>, ray: Ray) returns (shadowed: bool)
    requires IndicesInRange(vertices, indices)
    requires |indices| / 3 <= TWO32 / 4
    ensures var scene := Scene(vertices, indices); var t := BuildTree(scene);
            && (SceneHit(scene, ray) <==> MeshHit(vertices, indices, ray))
            && (shadowed ==> ReadableHit(Ordered(t), ray) && MeshHit(vertices, indices, ray))
            && (ClearOfAll(Flatten(t, 0, 0), ray) ==> Exact(shadowed, Ordered(t), scene, ray))
  {
    hide Exact, ClearOfAll, ReadableHit, SceneHit, MeshHit, Pow2, BuildTree, Flatten, Ordered;
    var packedNodes, packedTriangles, nodeCount, triangleCount := BuildBvh(vertices, indices);
    ghost var scene := Scene(vertices, indices);
    NodeCountFits(scene);
    SizeIsTwiceLeavesMinusOne(BuildTree(scene));
    ghost var t := BuildTree(scene);
    BuildPermutes(scene);
    DecodedIsBuilt(packedNodes[..], packedTriangles[..], t);
    var nodes := DecodeNodes(packedNodes[..], nodeCount);
    var faces := DecodeFaces(packedTriangles[..], triangleCount);
    SceneHitIsMeshHit(vertices, indices, ray);
    shadowed := Shadow(nodes, faces, ray, Ordered(t), scene);
  }
}
