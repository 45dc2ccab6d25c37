// The tree that buildBVH builds, as a value: median splits of the centroid order
// along the longest axis of the tight box, at most four triangles in a leaf.
module BvhTree {
  import opened Geometry

  const MAX_LEAF_SIZE := 4

  datatype Tri = Tri(v0: Vec3, v1: Vec3, v2: Vec3, centroid: Vec3, index: nat) {
    function Face(): Face { Geometry.Face(v0, v1, v2) }
  }

  // ------------------------------------------------------------------- bounds

  // The corners in the order the bounds loop visits them.
  function Corners(tris: seq<Tri>): (vs: seq<Vec3>)
    ensures |vs| == 3 * |tris|
  {
    if tris == [] then []
    else var t := tris[|tris| - 1]; Corners(tris[..|tris| - 1]) + [t.v0, t.v1, t.v2]
  }

  function Lowest(vs: seq<Vec3>, i: Axis): Ext {
    if vs == [] then PosInf else Min(Lowest(vs[..|vs| - 1], i), Fin(vs[|vs| - 1].At(i)))
  }

  function Highest(vs: seq<Vec3>, i: Axis): Ext {
    if vs == [] then NegInf else Max(Highest(vs[..|vs| - 1], i), Fin(vs[|vs| - 1].At(i)))
  }

  function Bounds(tris: seq<Tri>): Box {
    var vs := Corners(tris);
    Box(Ext3(Lowest(vs, 0), Lowest(vs, 1), Lowest(vs, 2)),
        Ext3(Highest(vs, 0), Highest(vs, 1), Highest(vs, 2)))
  }

  // Some corner of some triangle has this coordinate.
  ghost predicate Attained(tris: seq<Tri>, i: Axis, e: Ext) {
    exists t, k: Axis :: t in tris && e == Fin(t.Face().Corner(k).At(i))
  }

  // The smallest box around the corners, told without folding anything: every corner
  // is inside and each of the six faces touches one.
  ghost predicate IsTight(b: Box, tris: seq<Tri>) {
    && (forall t :: t in tris ==> FaceInBox(b, t.Face()))
    && (forall i: Axis :: Attained(tris, i, b.lo.At(i)) && Attained(tris, i, b.hi.At(i)))
  }

  lemma LowestIsLeast(vs: seq<Vec3>, i: Axis)
    ensures forall k :: 0 <= k < |vs| ==> Le(Lowest(vs, i), Fin(vs[k].At(i)))
    ensures vs != [] ==> exists k :: 0 <= k < |vs| && Lowest(vs, i) == Fin(vs[k].At(i))
  {
    if vs != [] {
      var n := |vs| - 1;
      LowestIsLeast(vs[..n], i);
      assert Lowest(vs, i) == Lowest(vs[..n], i) || Lowest(vs, i) == Fin(vs[n].At(i));
      assert n == 0 ==> Lowest(vs, i) == Fin(vs[n].At(i));
      assert forall k :: 0 <= k < n ==> vs[..n][k] == vs[k];
    }
  }

  lemma HighestIsGreatest(vs: seq<Vec3>, i: Axis)
    ensures forall k :: 0 <= k < |vs| ==> Le(Fin(vs[k].At(i)), Highest(vs, i))
    ensures vs != [] ==> exists k :: 0 <= k < |vs| && Highest(vs, i) == Fin(vs[k].At(i))
  {
    if vs != [] {
      var n := |vs| - 1;
      HighestIsGreatest(vs[..n], i);
      assert Highest(vs, i) == Highest(vs[..n], i) || Highest(vs, i) == Fin(vs[n].At(i));
      assert n == 0 ==> Highest(vs, i) == Fin(vs[n].At(i));
      assert forall k :: 0 <= k < n ==> vs[..n][k] == vs[k];
    }
  }

  lemma CornersAre(tris: seq<Tri>, j: nat, k: Axis)
    requires j < |tris|
    ensures Corners(tris)[3 * j + k] == tris[j].Face().Corner(k)
  {
    if j < |tris| - 1 {
      CornersAre(tris[..|tris| - 1], j, k);
    }
  }

  lemma BoundsAreTight(tris: seq<Tri>)
    requires tris != []
    ensures IsTight(Bounds(tris), tris)
  {
    var vs, b := Corners(tris), Bounds(tris);
    forall i: Axis
      ensures forall k :: 0 <= k < |vs| ==> Le(b.lo.At(i), Fin(vs[k].At(i))) && Le(Fin(vs[k].At(i)), b.hi.At(i))
      ensures Attained(tris, i, b.lo.At(i)) && Attained(tris, i, b.hi.At(i))
    {
      LowestIsLeast(vs, i);
      HighestIsGreatest(vs, i);
      var k :| 0 <= k < |vs| && b.lo.At(i) == Fin(vs[k].At(i));
      CornersAre(tris, k / 3, k % 3);
      var m :| 0 <= m < |vs| && b.hi.At(i) == Fin(vs[m].At(i));
      CornersAre(tris, m / 3, m % 3);
    }
    forall t | t in tris
      ensures FaceInBox(b, t.Face())
    {
      var j :| 0 <= j < |tris| && tris[j] == t;
      CornersAre(tris, j, 0);
      CornersAre(tris, j, 1);
      CornersAre(tris, j, 2);
    }
  }

  lemma CornerInside(b: Box, f: Face, k: Axis, i: Axis)
    requires FaceInBox(b, f)
    ensures Le(b.lo.At(i), Fin(f.Corner(k).At(i))) && Le(Fin(f.Corner(k).At(i)), b.hi.At(i))
  {
    assert InBox(b, f.Corner(k));
  }

  lemma AttainedInside(e: Ext, s: seq<Tri>, b: Box, i: Axis)
    requires Attained(s, i, e)
    requires forall x :: x in s ==> FaceInBox(b, x.Face())
    ensures e.Fin? && Le(b.lo.At(i), e) && Le(e, b.hi.At(i))
  {
    var p, k: Axis :| p in s && e == Fin(p.Face().Corner(k).At(i));
    CornerInside(b, p.Face(), k, i);
  }

  lemma TightFaces(a: Box, s: seq<Tri>, b: Box, t: seq<Tri>, i: Axis)
    requires IsTight(a, s) && IsTight(b, t)
    requires forall x :: x in s ==> x in t
    ensures Le(b.lo.At(i), a.lo.At(i)) && Le(a.hi.At(i), b.hi.At(i))
    ensures a.lo.At(i).Fin? && a.hi.At(i).Fin?
  {
    AttainedInside(a.lo.At(i), s, b, i);
    AttainedInside(a.hi.At(i), s, b, i);
  }

  // Tightness pins the box down, and only the set of triangles matters.
  lemma TightIsUnique(a: Box, b: Box, s: seq<Tri>, t: seq<Tri>)
    requires IsTight(a, s) && IsTight(b, t)
    requires forall x :: x in s <==> x in t
    ensures a == b
  {
    forall i: Axis
      ensures a.lo.At(i) == b.lo.At(i) && a.hi.At(i) == b.hi.At(i)
    {
      TightFaces(a, s, b, t, i);
      TightFaces(b, t, a, s, i);
    }
    assert a.lo.At(0) == b.lo.At(0) && a.lo.At(1) == b.lo.At(1) && a.lo.At(2) == b.lo.At(2);
    assert a.hi.At(0) == b.hi.At(0) && a.hi.At(1) == b.hi.At(1) && a.hi.At(2) == b.hi.At(2);
  }

  // --------------------------------------------------------------------- sort

  // After every element whose key is not greater.
  function InsertBy(s: seq<Tri>, t: Tri, axis: Axis): (r: seq<Tri>)
    ensures |r| == |s| + 1
  {
    if s == [] || s[|s| - 1].centroid.At(axis) <= t.centroid.At(axis) then s + [t]
    else InsertBy(s[..|s| - 1], t, axis) + [s[|s| - 1]]
  }

  // The stable ascending order on one centroid coordinate, which is what Array.sort
  // with a difference comparator is required to produce.
  function SortBy(tris: seq<Tri>, axis: Axis): (s: seq<Tri>)
    ensures |s| == |tris|
  {
    if tris == [] then []
    else InsertBy(SortBy(tris[..|tris| - 1], axis), tris[|tris| - 1], axis)
  }

  ghost predicate Ascending(s: seq<Tri>, axis: Axis) {
    forall i, j :: 0 <= i < j < |s| ==> s[i].centroid.At(axis) <= s[j].centroid.At(axis)
  }

  lemma {:induction false} InsertByAdds(s: seq<Tri>, t: Tri, axis: Axis)
    ensures multiset(InsertBy(s, t, axis)) == multiset(s) + multiset{t}
  {
    if s == [] || s[|s| - 1].centroid.At(axis) <= t.centroid.At(axis) {
    } else {
      var n := |s| - 1;
      InsertByAdds(s[..n], t, axis);
      assert s == s[..n] + [s[n]];
    }
  }

  lemma AscendingThen(r: seq<Tri>, last: Tri, axis: Axis)
    requires Ascending(r, axis) && forall x :: x in r ==> x.centroid.At(axis) <= last.centroid.At(axis)
    ensures Ascending(r + [last], axis)
  {
  }

  lemma {:induction false} InsertByAscends(s: seq<Tri>, t: Tri, axis: Axis)
    requires Ascending(s, axis)
    ensures Ascending(InsertBy(s, t, axis), axis)
  {
    hide Vec3.At;
    if s != [] && t.centroid.At(axis) < s[|s| - 1].centroid.At(axis) {
      var n := |s| - 1;
      var r := InsertBy(s[..n], t, axis);
      InsertByAscends(s[..n], t, axis);
      InsertByAdds(s[..n], t, axis);
      forall x | x in r
        ensures x.centroid.At(axis) <= s[n].centroid.At(axis)
      {
        assert x in multiset(r);
        assert x in s[..n] || x == t;
      }
      hide InsertBy;
      AscendingThen(r, s[n], axis);
    }
  }

  lemma {:induction false} SortBySpec(tris: seq<Tri>, axis: Axis)
    ensures multiset(SortBy(tris, axis)) == multiset(tris)
    ensures Ascending(SortBy(tris, axis), axis)
  {
    if tris != [] {
      var n := |tris| - 1;
      SortBySpec(tris[..n], axis);
      InsertByAdds(SortBy(tris[..n], axis), tris[n], axis);
      InsertByAscends(SortBy(tris[..n], axis), tris[n], axis);
      assert tris == tris[..n] + [tris[n]];
    }
  }

  // The triangles with one given key, in order.
  function WithKey(s: seq<Tri>, axis: Axis, key: real): seq<Tri> {
    if s == [] then []
    else WithKey(s[..|s| - 1], axis, key)
         + if s[|s| - 1].centroid.At(axis) == key then [s[|s| - 1]] else []
  }

  lemma {:induction false} InsertByIsStable(s: seq<Tri>, t: Tri, axis: Axis, key: real)
    ensures WithKey(InsertBy(s, t, axis), axis, key) == WithKey(s + [t], axis, key)
  {
    assert (s + [t])[..|s|] == s;
    if s != [] && s[|s| - 1].centroid.At(axis) > t.centroid.At(axis) {
      var n := |s| - 1;
      InsertByIsStable(s[..n], t, axis, key);
      var r := InsertBy(s[..n], t, axis);
      assert InsertBy(s, t, axis)[..|r|] == r;
      assert (s[..n] + [t])[..n] == s[..n];
    }
  }

  // Equal keys keep their order.
  lemma {:induction false} SortIsStable(s: seq<Tri>, axis: Axis, key: real)
    ensures WithKey(SortBy(s, axis), axis, key) == WithKey(s, axis, key)
  {
    if s != [] {
      var n := |s| - 1;
      SortIsStable(s[..n], axis, key);
      InsertByIsStable(SortBy(s[..n], axis), s[n], axis, key);
      var r := SortBy(s[..n], axis);
      assert (r + [s[n]])[..|r|] == r;
    }
  }

  // No key exceeds the last one of an ascending sequence.
  lemma {:induction false} KeyBound(s: seq<Tri>, axis: Axis, key: real)
    requires Ascending(s, axis) && s != [] && WithKey(s, axis, key) != []
    ensures key <= s[|s| - 1].centroid.At(axis)
  {
    var n := |s| - 1;
    if s[n].centroid.At(axis) != key {
      assert WithKey(s[..n], axis, key) != [];
      assert n > 0;
      KeyBound(s[..n], axis, key);
      assert s[..n][n - 1] == s[n - 1];
    }
  }

  lemma SameLast(a: seq<Tri>, b: seq<Tri>, axis: Axis)
    requires Ascending(a, axis) && Ascending(b, axis) && a != []
    requires forall key :: WithKey(a, axis, key) == WithKey(b, axis, key)
    ensures b != [] && a[|a| - 1] == b[|b| - 1]
  {
    var ka := a[|a| - 1].centroid.At(axis);
    var wa := WithKey(a, axis, ka);
    assert wa != [] && wa == WithKey(b, axis, ka);
    assert b != [];
    var kb := b[|b| - 1].centroid.At(axis);
    assert WithKey(b, axis, kb) != [] && WithKey(b, axis, kb) == WithKey(a, axis, kb);
    KeyBound(b, axis, ka);
    KeyBound(a, axis, kb);
    assert wa[|wa| - 1] == a[|a| - 1];
  }

  lemma WithKeyLast(s: seq<Tri>, axis: Axis, key: real)
    requires s != []
    ensures WithKey(s, axis, key) == WithKey(s[..|s| - 1], axis, key)
              + if s[|s| - 1].centroid.At(axis) == key then [s[|s| - 1]] else []
  {
  }

  lemma CutTail<T>(x: seq<T>, y: seq<T>, tail: seq<T>)
    requires x + tail == y + tail
    ensures x == y
  {
    assert |x| == |y|;
    assert x == (x + tail)[..|x|] && y == (y + tail)[..|y|];
  }

  lemma SameKeyBeforeLast(a: seq<Tri>, b: seq<Tri>, axis: Axis, key: real)
    requires a != [] && b != [] && a[|a| - 1] == b[|b| - 1]
    requires WithKey(a, axis, key) == WithKey(b, axis, key)
    ensures WithKey(a[..|a| - 1], axis, key) == WithKey(b[..|b| - 1], axis, key)
  {
    hide WithKey;
    WithKeyLast(a, axis, key);
    WithKeyLast(b, axis, key);
    var tail := if a[|a| - 1].centroid.At(axis) == key then [a[|a| - 1]] else [];
    CutTail(WithKey(a[..|a| - 1], axis, key), WithKey(b[..|b| - 1], axis, key), tail);
  }

  lemma LastKeyPresent(s: seq<Tri>, axis: Axis)
    requires s != []
    ensures WithKey(s, axis, s[|s| - 1].centroid.At(axis)) != []
  {
  }

  // Order and stability leave no choice, so SortBy is the outcome of any such sort.
  lemma {:induction false} StableSortIsUnique(a: seq<Tri>, b: seq<Tri>, axis: Axis)
    requires Ascending(a, axis) && Ascending(b, axis)
    requires forall key :: WithKey(a, axis, key) == WithKey(b, axis, key)
    ensures a == b
    decreases |a|
  {
    if a == [] {
      if b != [] {
        LastKeyPresent(b, axis);
        assert false;
      }
    } else {
      SameLast(a, b, axis);
      var a', b' := a[..|a| - 1], b[..|b| - 1];
      forall key
        ensures WithKey(a', axis, key) == WithKey(b', axis, key)
      {
        SameKeyBeforeLast(a, b, axis, key);
      }
      StableSortIsUnique(a', b', axis);
      assert a == a' + [a[|a| - 1]] && b == b' + [b[|b| - 1]];
    }
  }

  // --------------------------------------------------------------------- tree

  datatype Tree =
    | Leaf(box: Box, tris: seq<Tri>)
    | Inner(box: Box, left: Tree, right: Tree)

  function Extent(b: Box, i: Axis): real {
    if b.lo.At(i).Fin? && b.hi.At(i).Fin? then b.hi.At(i).r - b.lo.At(i).r else 0.0
  }

  function LongestAxis(b: Box): Axis {
    var axis := if Extent(b, 1) > Extent(b, 0) then 1 else 0;
    if Extent(b, 2) > Extent(b, axis) then 2 else axis
  }

  // The box is widest along axis, and of equally wide axes that is the first.
  ghost predicate Widest(b: Box, axis: Axis) {
    && (forall i: Axis :: b.lo.At(i).Fin? && b.hi.At(i).Fin?)
    && forall i: Axis ::
         var here, there := b.hi.At(axis).r - b.lo.At(axis).r, b.hi.At(i).r - b.lo.At(i).r;
         if i < axis then there < here else there <= here
  }

  lemma LongestOfFinite(b: Box)
    requires forall i: Axis :: b.lo.At(i).Fin? && b.hi.At(i).Fin?
    ensures Widest(b, LongestAxis(b))
  {
    assert b.lo.At(0).Fin? && b.lo.At(1).Fin? && b.lo.At(2).Fin?;
  }

  lemma FiniteBounds(tris: seq<Tri>)
    requires tris != []
    ensures forall i: Axis :: Bounds(tris).lo.At(i).Fin? && Bounds(tris).hi.At(i).Fin?
  {
    hide Bounds;
    BoundsAreTight(tris);
    var b := Bounds(tris);
    forall i: Axis
      ensures b.lo.At(i).Fin? && b.hi.At(i).Fin?
    {
      assert Attained(tris, i, b.lo.At(i)) && Attained(tris, i, b.hi.At(i));
    }
  }

  lemma LongestIsWidest(tris: seq<Tri>)
    requires tris != []
    ensures Widest(Bounds(tris), LongestAxis(Bounds(tris)))
  {
    hide Bounds, LongestAxis, Widest;
    FiniteBounds(tris);
    LongestOfFinite(Bounds(tris));
  }

  function BuildTree(tris: seq<Tri>): Tree
    decreases |tris|
  {
    if |tris| <= MAX_LEAF_SIZE then Leaf(Bounds(tris), tris)
    else
      var b := Bounds(tris);
      var s := SortBy(tris, LongestAxis(b));
      var mid := |s| / 2;
      Inner(b, BuildTree(s[..mid]), BuildTree(s[mid..]))
  }

  function Size(t: Tree): nat {
    if t.Leaf? then 1 else 1 + Size(t.left) + Size(t.right)
  }

  function Leaves(t: Tree): nat {
    if t.Leaf? then 1 else Leaves(t.left) + Leaves(t.right)
  }

  function Depth(t: Tree): nat {
    if t.Leaf? then 0
    else 1 + if Depth(t.left) > Depth(t.right) then Depth(t.left) else Depth(t.right)
  }

  // How many triangles the leaves hold, and which, in the order they are pushed.
  function Count(t: Tree): nat {
    if t.Leaf? then |t.tris| else Count(t.left) + Count(t.right)
  }

  function Ordered(t: Tree): (s: seq<Tri>)
    ensures |s| == Count(t)
  {
    if t.Leaf? then t.tris else Ordered(t.left) + Ordered(t.right)
  }

  lemma BuildInner(tris: seq<Tri>)
    requires |tris| > MAX_LEAF_SIZE
    ensures var s := SortBy(tris, LongestAxis(Bounds(tris)));
            BuildTree(tris) == Inner(Bounds(tris), BuildTree(s[..|s| / 2]), BuildTree(s[|s| / 2..]))
  {
    hide Bounds, SortBy, LongestAxis;
  }

  lemma {:induction false} SizeIsTwiceLeavesMinusOne(t: Tree)
    ensures Size(t) == 2 * Leaves(t) - 1
    decreases t
  {
    if t.Inner? {
      SizeIsTwiceLeavesMinusOne(t.left);
      SizeIsTwiceLeavesMinusOne(t.right);
    }
  }

  // The scene is cut in half along the direction in which it spreads most.
  lemma Split(tris: seq<Tri>)
    requires |tris| > MAX_LEAF_SIZE
    ensures var axis := LongestAxis(Bounds(tris)); var s := SortBy(tris, axis); var mid := |s| / 2;
            && multiset(s[..mid]) + multiset(s[mid..]) == multiset(tris)
            && |s[..mid]| == |tris| / 2 && |s[mid..]| == |tris| - |tris| / 2
            && (forall a, b :: a in s[..mid] && b in s[mid..] ==> a.centroid.At(axis) <= b.centroid.At(axis))
            && Widest(Bounds(tris), axis)
  {
    hide Bounds, LongestAxis, Widest, SortBy;
    var axis := LongestAxis(Bounds(tris));
    LongestIsWidest(tris);
    var s := SortBy(tris, axis);
    SortBySpec(tris, axis);
    assert s == s[..|s| / 2] + s[|s| / 2..];
  }

  // No triangle is lost, duplicated or invented.
  lemma {:induction false} BuildPermutes(tris: seq<Tri>)
    ensures multiset(Ordered(BuildTree(tris))) == multiset(tris)
    ensures Count(BuildTree(tris)) == |tris|
    decreases |tris|
  {
    if |tris| > MAX_LEAF_SIZE {
      var s := SortBy(tris, LongestAxis(Bounds(tris)));
      Split(tris);
      BuildPermutes(s[..|s| / 2]);
      BuildPermutes(s[|s| / 2..]);
    }
  }

  lemma SameElements(s: seq<Tri>, t: seq<Tri>)
    requires multiset(s) == multiset(t)
    ensures forall x :: x in s <==> x in t
  {
    forall x
      ensures x in s <==> x in t
    {
      assert x in s <==> x in multiset(s);
      assert x in t <==> x in multiset(t);
    }
  }

  ghost predicate BoxWithin(a: Box, b: Box) {
    forall i: Axis :: Le(b.lo.At(i), a.lo.At(i)) && Le(a.hi.At(i), b.hi.At(i))
  }

  // Every box of the tree is the tight box of the triangles below it, so the boxes nest.
  ghost predicate TightTree(t: Tree) {
    && IsTight(t.box, Ordered(t))
    && (t.Inner? ==>
          && TightTree(t.left) && TightTree(t.right)
          && BoxWithin(t.left.box, t.box) && BoxWithin(t.right.box, t.box))
  }

  lemma TightFor(b: Box, s: seq<Tri>, t: seq<Tri>)
    requires IsTight(b, s)
    requires forall x :: x in s <==> x in t
    ensures IsTight(b, t)
  {
    forall i: Axis
      ensures Attained(t, i, b.lo.At(i)) && Attained(t, i, b.hi.At(i))
    {
      assert Attained(s, i, b.lo.At(i)) && Attained(s, i, b.hi.At(i));
    }
  }

  lemma {:induction false} BuildIsTight(tris: seq<Tri>)
    requires tris != []
    ensures TightTree(BuildTree(tris))
    decreases |tris|
  {
    var t := BuildTree(tris);
    BuildPermutes(tris);
    SameElements(Ordered(t), tris);
    BoundsAreTight(tris);
    TightFor(t.box, tris, Ordered(t));
    if |tris| > MAX_LEAF_SIZE {
      var s := SortBy(tris, LongestAxis(Bounds(tris)));
      BuildIsTight(s[..|s| / 2]);
      BuildIsTight(s[|s| / 2..]);
      forall i: Axis
        ensures Le(t.box.lo.At(i), t.left.box.lo.At(i)) && Le(t.left.box.hi.At(i), t.box.hi.At(i))
        ensures Le(t.box.lo.At(i), t.right.box.lo.At(i)) && Le(t.right.box.hi.At(i), t.box.hi.At(i))
      {
        TightFaces(t.left.box, Ordered(t.left), t.box, Ordered(t), i);
        TightFaces(t.right.box, Ordered(t.right), t.box, Ordered(t), i);
      }
    }
  }

  // Leaves of a scene too big for one leaf hold two, three or four triangles.
  ghost predicate LeavesBetween(t: Tree, lo: nat, hi: nat) {
    if t.Leaf? then lo <= |t.tris| <= hi
    else LeavesBetween(t.left, lo, hi) && LeavesBetween(t.right, lo, hi)
  }

  lemma {:induction false} LeafSizes(tris: seq<Tri>)
    requires |tris| >= 2
    ensures LeavesBetween(BuildTree(tris), 2, MAX_LEAF_SIZE)
    decreases |tris|
  {
    if |tris| > MAX_LEAF_SIZE {
      var s := SortBy(tris, LongestAxis(Bounds(tris)));
      LeafSizes(s[..|s| / 2]);
      LeafSizes(s[|s| / 2..]);
    }
  }

  function Pow2(k: nat): (r: nat)
    ensures r >= 1
  {
    if k == 0 then 1 else 2 * Pow2(k - 1)
  }

  lemma BuildLeaf(tris: seq<Tri>)
    requires |tris| <= MAX_LEAF_SIZE
    ensures BuildTree(tris) == Leaf(Bounds(tris), tris)
  {
  }

  lemma BothHalvesFit(n: nat, p: nat)
    ensures n / 2 <= MAX_LEAF_SIZE * p && n - n / 2 <= MAX_LEAF_SIZE * p <==> n <= MAX_LEAF_SIZE * (2 * p)
  {
  }

  // The depth is the least D with |tris| <= 4 * 2^D.
  lemma {:induction false} DepthIsLogarithmic(tris: seq<Tri>, d: nat)
    ensures Depth(BuildTree(tris)) <= d <==> |tris| <= MAX_LEAF_SIZE * Pow2(d)
    decreases d
  {
    hide SortBy, Bounds, LongestAxis, BuildTree;
    if |tris| <= MAX_LEAF_SIZE {
      BuildLeaf(tris);
    } else {
      var s := SortBy(tris, LongestAxis(Bounds(tris)));
      BuildInner(tris);
      if d > 0 {
        DepthIsLogarithmic(s[..|s| / 2], d - 1);
        DepthIsLogarithmic(s[|s| / 2..], d - 1);
        BothHalvesFit(|s|, Pow2(d - 1));
      }
    }
  }

  ghost predicate Apart(s: seq<Tri>, t: seq<Tri>, axis: Axis) {
    forall a, b :: a in s && b in t ==> a.centroid.At(axis) <= b.centroid.At(axis)
  }

  // Every inner node is cut in half at the median along the direction its box is widest in.
  ghost predicate Halved(t: Tree) {
    t.Inner? ==>
      && Halved(t.left) && Halved(t.right) && Count(t.left) == Count(t) / 2
      && exists axis: Axis :: Widest(t.box, axis) && Apart(Ordered(t.left), Ordered(t.right), axis)
  }

  lemma LeafOf(tris: seq<Tri>)
    requires |tris| <= MAX_LEAF_SIZE
    ensures BuildTree(tris) == Leaf(Bounds(tris), tris)
  {
    hide Bounds;
  }

  lemma {:induction false} BuildHalves(tris: seq<Tri>)
    ensures Halved(BuildTree(tris))
    decreases |tris|
  {
    hide Bounds, LongestAxis, Widest, SortBy, BuildTree;
    if |tris| > MAX_LEAF_SIZE {
      var axis := LongestAxis(Bounds(tris));
      var s := SortBy(tris, axis);
      var left, right := s[..|s| / 2], s[|s| / 2..];
      Split(tris);
      BuildInner(tris);
      BuildHalves(left);
      BuildHalves(right);
      BuildPermutes(left);
      BuildPermutes(right);
      SameElements(Ordered(BuildTree(left)), left);
      SameElements(Ordered(BuildTree(right)), right);
      assert Apart(Ordered(BuildTree(left)), Ordered(BuildTree(right)), axis);
    } else {
      LeafOf(tris);
    }
  }
}
