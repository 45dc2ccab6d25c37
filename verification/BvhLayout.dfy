// How the tree lies in the two arrays: node records in preorder, triangles in leaf
// order. An inner record names its left child and has count 0; a leaf record names
// its first triangle and has a positive count.
module BvhLayout {
  import opened Geometry
  import opened BvhTree

  datatype Record = Record(box: Box, leftOrFirst: nat, rightOrCount: nat)

  // An inner record at index at, its left subtree's records, its right subtree's records.
  function Parent(box: Box, at: nat, l: seq<Record>, r: seq<Record>): (s: seq<Record>)
    ensures |s| == 1 + |l| + |r|
  {
    [Record(box, at + 1, 0)] + l + r
  }

  // The records of t when its root lands at index at and its triangles start at first.
  function Flatten(t: Tree, at: nat, first: nat): (r: seq<Record>)
    ensures |r| == Size(t)
  {
    if t.Leaf? then [Record(t.box, first, |t.tris|)]
    else Parent(t.box, at, Flatten(t.left, at + 1, first),
                Flatten(t.right, at + 1 + Size(t.left), first + Count(t.left)))
  }

  // The subtree whose root has preorder number i in t, and where its triangles start.
  function SubtreeAt(t: Tree, i: nat): Tree
    requires i < Size(t)
  {
    if i == 0 then t
    else if i - 1 < Size(t.left) then SubtreeAt(t.left, i - 1)
    else SubtreeAt(t.right, i - 1 - Size(t.left))
  }

  function FirstAt(t: Tree, i: nat): nat
    requires i < Size(t)
  {
    if i == 0 then 0
    else if i - 1 < Size(t.left) then FirstAt(t.left, i - 1)
    else Count(t.left) + FirstAt(t.right, i - 1 - Size(t.left))
  }

  // ----------------------------------------------- the arrays hold a given tree

  ghost predicate HasAt<T>(s: seq<T>, at: nat, part: seq<T>) {
    at + |part| <= |s| && s[at..at + |part|] == part
  }

  lemma HasPieces<T>(s: seq<T>, at: nat, a: seq<T>, b: seq<T>)
    requires HasAt(s, at, a + b)
    ensures HasAt(s, at, a) && HasAt(s, at + |a|, b)
  {
    var mine := s[at..at + |a| + |b|];
    assert mine == a + b;
    assert mine[..|a|] == s[at..at + |a|];
    assert mine[|a|..] == s[at + |a|..at + |a| + |b|];
  }

  lemma HasElement<T>(s: seq<T>, at: nat, part: seq<T>, k: nat)
    requires HasAt(s, at, part) && k < |part|
    ensures at + k < |s| && s[at + k] == part[k]
  {
    assert s[at..at + |part|][k] == s[at + k];
  }

  // nodes[at ..] and tris[first ..] hold t.
  ghost predicate Holds(nodes: seq<Record>, tris: seq<Tri>, t: Tree, at: nat, first: nat) {
    && at < |nodes|
    && if t.Leaf? then nodes[at] == Record(t.box, first, |t.tris|) && HasAt(tris, first, t.tris)
       else
         && nodes[at] == Record(t.box, at + 1, 0)
         && Holds(nodes, tris, t.left, at + 1, first)
         && Holds(nodes, tris, t.right, at + 1 + Size(t.left), first + Count(t.left))
  }

  lemma HasNodes(nodes: seq<Record>, box: Box, at: nat, l: seq<Record>, r: seq<Record>)
    requires HasAt(nodes, at, Parent(box, at, l, r))
    ensures at < |nodes| && nodes[at] == Record(box, at + 1, 0)
    ensures HasAt(nodes, at + 1, l) && HasAt(nodes, at + 1 + |l|, r)
  {
    var root := [Record(box, at + 1, 0)];
    HasPieces(nodes, at, root + l, r);
    HasPieces(nodes, at, root, l);
    HasElement(nodes, at, root, 0);
  }

  lemma {:induction false} FlattenHolds(nodes: seq<Record>, tris: seq<Tri>, t: Tree, at: nat, first: nat)
    requires HasAt(nodes, at, Flatten(t, at, first)) && HasAt(tris, first, Ordered(t))
    ensures Holds(nodes, tris, t, at, first)
    decreases t
  {
    hide HasAt;
    if t.Leaf? {
      HasElement(nodes, at, Flatten(t, at, first), 0);
    } else {
      HasNodes(nodes, t.box, at, Flatten(t.left, at + 1, first),
               Flatten(t.right, at + 1 + Size(t.left), first + Count(t.left)));
      HasPieces(tris, first, Ordered(t.left), Ordered(t.right));
      FlattenHolds(nodes, tris, t.left, at + 1, first);
      FlattenHolds(nodes, tris, t.right, at + 1 + Size(t.left), first + Count(t.left));
    }
  }

  lemma {:induction false} HoldsRange(nodes: seq<Record>, tris: seq<Tri>, t: Tree, at: nat, first: nat)
    requires Holds(nodes, tris, t, at, first)
    ensures at + Size(t) <= |nodes| && first + Count(t) <= |tris|
    ensures tris[first..first + Count(t)] == Ordered(t)
    decreases t
  {
    if t.Inner? {
      var m := first + Count(t.left);
      HoldsRange(nodes, tris, t.left, at + 1, first);
      HoldsRange(nodes, tris, t.right, at + 1 + Size(t.left), m);
      assert tris[first..first + Count(t)] == tris[first..m] + tris[m..first + Count(t)];
    }
  }

  // Every index of the record array is the root of a subtree that the arrays hold there.
  lemma {:induction false} HoldsSubtree(nodes: seq<Record>, tris: seq<Tri>, t: Tree, at: nat, first: nat, i: nat)
    requires Holds(nodes, tris, t, at, first) && i < Size(t)
    ensures Holds(nodes, tris, SubtreeAt(t, i), at + i, first + FirstAt(t, i))
    decreases t
  {
    if i > 0 {
      if i - 1 < Size(t.left) {
        HoldsSubtree(nodes, tris, t.left, at + 1, first, i - 1);
      } else {
        HoldsSubtree(nodes, tris, t.right, at + 1 + Size(t.left), first + Count(t.left), i - 1 - Size(t.left));
      }
    }
  }

  // Leaf records never look like inner ones when no leaf of the tree is empty.
  ghost predicate NoEmptyLeaf(t: Tree) {
    if t.Leaf? then t.tris != [] else NoEmptyLeaf(t.left) && NoEmptyLeaf(t.right)
  }

  lemma {:induction false} BuildHasNoEmptyLeaf(tris: seq<Tri>)
    requires tris != []
    ensures NoEmptyLeaf(BuildTree(tris))
    decreases |tris|
  {
    if |tris| > MAX_LEAF_SIZE {
      var s := SortBy(tris, LongestAxis(Bounds(tris)));
      BuildHasNoEmptyLeaf(s[..|s| / 2]);
      BuildHasNoEmptyLeaf(s[|s| / 2..]);
    }
  }

  lemma {:induction false} SubtreeKeeps(t: Tree, i: nat)
    requires i < Size(t)
    ensures NoEmptyLeaf(t) ==> NoEmptyLeaf(SubtreeAt(t, i))
    ensures TightTree(t) ==> TightTree(SubtreeAt(t, i))
    ensures i + Size(SubtreeAt(t, i)) <= Size(t)
    ensures FirstAt(t, i) + Count(SubtreeAt(t, i)) <= Count(t)
    decreases t
  {
    if i > 0 {
      if i - 1 < Size(t.left) {
        SubtreeKeeps(t.left, i - 1);
      } else {
        SubtreeKeeps(t.right, i - 1 - Size(t.left));
      }
    }
  }

  // ------------------------------------------------------------- the whole scene

  // The output of the builder: what its arrays hold for a scene.
  ghost predicate BuiltFrom(nodes: seq<Record>, ordered: seq<Tri>, scene: seq<Tri>) {
    nodes == Flatten(BuildTree(scene), 0, 0) && ordered == Ordered(BuildTree(scene))
  }

  lemma BuiltHolds(nodes: seq<Record>, ordered: seq<Tri>, scene: seq<Tri>)
    requires BuiltFrom(nodes, ordered, scene)
    ensures Holds(nodes, ordered, BuildTree(scene), 0, 0)
    ensures |nodes| == Size(BuildTree(scene)) && |ordered| == Count(BuildTree(scene))
  {
    FlattenHolds(nodes, ordered, BuildTree(scene), 0, 0);
  }

  // Conservation, and the box law read off the arrays: node i stands for one
  // contiguous run of triangles, its box is tight for that run, an inner node splits
  // the run between i + 1 and the node after the left subtree, and a leaf is the run.
  ghost predicate Describes(nodes: seq<Record>, ordered: seq<Tri>, i: nat, lo: nat, hi: nat, next: nat) {
    && i < next <= |nodes| && lo < hi <= |ordered|
    && IsTight(nodes[i].box, ordered[lo..hi])
    && (nodes[i].rightOrCount > 0 ==>
          nodes[i].leftOrFirst == lo && nodes[i].rightOrCount == hi - lo && next == i + 1)
    && (nodes[i].rightOrCount == 0 ==> nodes[i].leftOrFirst == i + 1)
  }

  // Inner node i covers lo .. hi; its children split that run at m and sit inside its box.
  ghost predicate Splits(nodes: seq<Record>, ordered: seq<Tri>, i: nat, lo: nat, m: nat, hi: nat, r: nat, next: nat) {
    && Describes(nodes, ordered, i + 1, lo, m, r)
    && Describes(nodes, ordered, r, m, hi, next)
    && BoxWithin(nodes[i + 1].box, nodes[i].box) && BoxWithin(nodes[r].box, nodes[i].box)
  }

  lemma {:induction false} OrderedNonEmpty(t: Tree)
    requires NoEmptyLeaf(t)
    ensures Ordered(t) != []
    decreases t
  {
    if t.Inner? {
      OrderedNonEmpty(t.left);
    }
  }

  lemma HeldDescribes(nodes: seq<Record>, tris: seq<Tri>, t: Tree, at: nat, first: nat)
    requires Holds(nodes, tris, t, at, first) && NoEmptyLeaf(t) && TightTree(t)
    ensures Describes(nodes, tris, at, first, first + Count(t), at + Size(t))
    ensures nodes[at].box == t.box && (nodes[at].rightOrCount == 0 <==> t.Inner?)
  {
    OrderedNonEmpty(t);
    HoldsRange(nodes, tris, t, at, first);
  }

  lemma NodeDescribesRun(nodes: seq<Record>, ordered: seq<Tri>, scene: seq<Tri>, i: nat)
    requires scene != [] && BuiltFrom(nodes, ordered, scene) && i < |nodes|
    ensures var t := BuildTree(scene); var sub := SubtreeAt(t, i);
            Describes(nodes, ordered, i, FirstAt(t, i), FirstAt(t, i) + Count(sub), i + Size(sub))
    ensures nodes[i].rightOrCount == 0 <==> SubtreeAt(BuildTree(scene), i).Inner?
  {
    hide *;
    var t := BuildTree(scene);
    BuiltHolds(nodes, ordered, scene);
    HoldsSubtree(nodes, ordered, t, 0, 0, i);
    BuildIsTight(scene);
    BuildHasNoEmptyLeaf(scene);
    SubtreeKeeps(t, i);
    HeldDescribes(nodes, ordered, SubtreeAt(t, i), i, FirstAt(t, i));
  }

  lemma InnerParts(t: Tree)
    requires TightTree(t) && t.Inner?
    ensures TightTree(t.left) && TightTree(t.right)
    ensures BoxWithin(t.left.box, t.box) && BoxWithin(t.right.box, t.box)
  {
  }

  lemma HeldSplits(nodes: seq<Record>, tris: seq<Tri>, t: Tree, at: nat, first: nat)
    requires Holds(nodes, tris, t, at, first) && NoEmptyLeaf(t) && TightTree(t) && t.Inner?
    ensures Splits(nodes, tris, at, first, first + Count(t.left), first + Count(t),
                   at + 1 + Size(t.left), at + Size(t))
  {
    hide IsTight, TightTree, Describes, BoxWithin;
    InnerParts(t);
    HeldDescribes(nodes, tris, t.left, at + 1, first);
    HeldDescribes(nodes, tris, t.right, at + 1 + Size(t.left), first + Count(t.left));
  }

  lemma InnerNodeSplitsRun(nodes: seq<Record>, ordered: seq<Tri>, scene: seq<Tri>, i: nat)
    requires scene != [] && BuiltFrom(nodes, ordered, scene) && i < |nodes|
    requires SubtreeAt(BuildTree(scene), i).Inner?
    ensures var t := BuildTree(scene); var sub := SubtreeAt(t, i); var f := FirstAt(t, i);
            Splits(nodes, ordered, i, f, f + Count(sub.left), f + Count(sub),
                   i + 1 + Size(sub.left), i + Size(sub))
  {
    hide *;
    BuiltHolds(nodes, ordered, scene);
    var t := BuildTree(scene);
    var sub, f := SubtreeAt(t, i), FirstAt(t, i);
    HoldsSubtree(nodes, ordered, t, 0, 0, i);
    BuildIsTight(scene);
    BuildHasNoEmptyLeaf(scene);
    SubtreeKeeps(t, i);
    HeldSplits(nodes, ordered, sub, i, f);
  }

  lemma {:induction false} BuiltCounts(nodes: seq<Record>, ordered: seq<Tri>, scene: seq<Tri>)
    requires BuiltFrom(nodes, ordered, scene)
    ensures multiset(ordered) == multiset(scene) && |ordered| == |scene|
    ensures |nodes| == 2 * Leaves(BuildTree(scene)) - 1
  {
    BuildPermutes(scene);
    SizeIsTwiceLeavesMinusOne(BuildTree(scene));
  }

  // Does leaf record i own triangle slot k?
  predicate Owns(r: Record, k: nat) {
    r.rightOrCount > 0 && r.leftOrFirst <= k < r.leftOrFirst + r.rightOrCount
  }

  // The preorder number of the leaf that holds the k-th triangle.
  function OwnerIndex(t: Tree, k: nat): (i: nat)
    requires k < Count(t)
    ensures i < Size(t)
  {
    if t.Leaf? then 0
    else if k < Count(t.left) then 1 + OwnerIndex(t.left, k)
    else 1 + Size(t.left) + OwnerIndex(t.right, k - Count(t.left))
  }

  lemma FlattenAt(t: Tree, at: nat, first: nat, i: nat)
    requires t.Inner? && i < Size(t)
    ensures var r, l := Flatten(t, at, first)[i], Size(t.left);
            if i == 0 then r.rightOrCount == 0
            else if i <= l then r == Flatten(t.left, at + 1, first)[i - 1]
            else r == Flatten(t.right, at + 1 + l, first + Count(t.left))[i - 1 - l]
  {
  }

  lemma {:induction false} OwnerIs(t: Tree, at: nat, first: nat, k: nat, i: nat)
    requires NoEmptyLeaf(t) && i < Size(t)
    ensures Owns(Flatten(t, at, first)[i], k)
       <==> first <= k < first + Count(t) && i == OwnerIndex(t, k - first)
    decreases t
  {
    if t.Inner? {
      var l, m := Size(t.left), Count(t.left);
      FlattenAt(t, at, first, i);
      hide Flatten;
      if i == 0 {
      } else if i <= l {
        OwnerIs(t.left, at + 1, first, k, i - 1);
      } else {
        OwnerIs(t.right, at + 1 + l, first + m, k, i - 1 - l);
      }
    }
  }

  // The leaf ranges tile the triangle array: each slot has exactly one owner.
  lemma LeafRangesTile(nodes: seq<Record>, ordered: seq<Tri>, scene: seq<Tri>, k: nat)
    requires scene != [] && BuiltFrom(nodes, ordered, scene)
    ensures k < |ordered| ==> exists i :: 0 <= i < |nodes| && Owns(nodes[i], k)
    ensures forall i, j :: 0 <= i < |nodes| && 0 <= j < |nodes| && Owns(nodes[i], k) && Owns(nodes[j], k) ==> i == j
    ensures k >= |ordered| ==> forall i :: 0 <= i < |nodes| ==> !Owns(nodes[i], k)
  {
    var t := BuildTree(scene);
    BuildHasNoEmptyLeaf(scene);
    forall i | 0 <= i < |nodes|
      ensures Owns(nodes[i], k) <==> k < |ordered| && i == OwnerIndex(t, k)
    {
      OwnerIs(t, 0, 0, k, i);
    }
    if k < |ordered| {
      assert Owns(nodes[OwnerIndex(t, k)], k);
    }
  }

  // -------------------------------------------------------- the reader's layout

  // Where the reader expects the right child: next to the left one.
  ghost predicate RightNextToLeft(t: Tree) {
    t.Inner? ==> t.left.Leaf? && RightNextToLeft(t.right)
  }

  // The builder meets the reader's expectation exactly for scenes of at most nine triangles.
  lemma {:induction false} AdjacentIffNine(tris: seq<Tri>)
    ensures RightNextToLeft(BuildTree(tris)) <==> |tris| <= 9
    decreases |tris|
  {
    if |tris| > MAX_LEAF_SIZE {
      var s := SortBy(tris, LongestAxis(Bounds(tris)));
      var l, r := s[..|s| / 2], s[|s| / 2..];
      AdjacentIffNine(r);
    }
  }

  lemma {:induction false} AdjacentAt(t: Tree, i: nat)
    requires RightNextToLeft(t) && i < Size(t) && SubtreeAt(t, i).Inner?
    ensures Size(SubtreeAt(t, i).left) == 1
    decreases t
  {
    if i > 0 {
      if i - 1 < Size(t.left) {
        AdjacentAt(t.left, i - 1);
      } else {
        AdjacentAt(t.right, i - 1 - Size(t.left));
      }
    }
  }

  lemma {:induction false} NotAdjacentAt(t: Tree) returns (i: nat)
    requires !RightNextToLeft(t)
    ensures i < Size(t) && SubtreeAt(t, i).Inner? && Size(SubtreeAt(t, i).left) != 1
    decreases t
  {
    if t.left.Inner? {
      i := 0;
    } else {
      var j := NotAdjacentAt(t.right);
      i := 1 + Size(t.left) + j;
    }
  }

  // The same read off the array: every inner record's left + 1 is where its right
  // subtree starts.
  ghost predicate ReaderAgrees(nodes: seq<Record>, t: Tree)
    requires |nodes| == Size(t)
  {
    forall i: nat :: i < |nodes| && SubtreeAt(t, i).Inner? ==>
      nodes[i].leftOrFirst + 1 == i + 1 + Size(SubtreeAt(t, i).left)
  }

  lemma HeldAgrees(nodes: seq<Record>, tris: seq<Tri>, t: Tree)
    requires Holds(nodes, tris, t, 0, 0) && |nodes| == Size(t)
    ensures ReaderAgrees(nodes, t) <==> RightNextToLeft(t)
  {
    forall i: nat | i < |nodes| && SubtreeAt(t, i).Inner?
      ensures nodes[i].leftOrFirst == i + 1
    {
      HoldsSubtree(nodes, tris, t, 0, 0, i);
    }
    hide Holds;
    if RightNextToLeft(t) {
      forall i: nat | i < Size(t) && SubtreeAt(t, i).Inner?
        ensures Size(SubtreeAt(t, i).left) == 1
      {
        AdjacentAt(t, i);
      }
    } else {
      var i := NotAdjacentAt(t);
    }
  }

  lemma {:induction false} LayoutMatchesIffNine(nodes: seq<Record>, ordered: seq<Tri>, scene: seq<Tri>)
    requires BuiltFrom(nodes, ordered, scene)
    ensures |scene| <= 9 <==> ReaderAgrees(nodes, BuildTree(scene))
  {
    AdjacentIffNine(scene);
    BuiltHolds(nodes, ordered, scene);
    hide BuiltFrom, BuildTree;
    HeldAgrees(nodes, ordered, BuildTree(scene));
  }
}
