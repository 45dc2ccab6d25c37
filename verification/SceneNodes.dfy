// Scene nodes: each owns a transform, and adding or removing a child node moves the
// child's transform along.
module SceneNodes {
  import opened Matrices
  import opened Rotations
  import opened Transforms
  import opened Lists

  // --------------------------------------------------------- the two trees together

  datatype Graph = Graph(nodes: set<Node>, transforms: set<Transform>)

  // Nodes link up like the transforms do.
  ghost predicate NodesLinked(ns: set<Node>)
    reads ns
  {
    && (forall n :: n in ns && n.parent != null ==> n.parent in ns && n in n.parent.children)
    && (forall n, c :: n in ns && c in n.children ==> c in ns && c.parent == n)
    && (forall n :: n in ns ==> Distinct(n.children))
  }

  function TransformsOf(ns: seq<Node>): (ts: seq<Transform>)
    ensures |ts| == |ns|
  {
    seq(|ns|, i requires 0 <= i < |ns| => ns[i].transform)
  }

  function TransformOf(n: Node?): Transform? {
    if n == null then null else n.transform
  }

  ghost predicate OwnTransforms(g: Graph) {
    && (forall n :: n in g.nodes ==> n.transform in g.transforms)
    && (forall n, m :: n in g.nodes && m in g.nodes && n.transform == m.transform ==> n == m)
  }

  // The two trees have the same parents and the same children in the same order.
  ghost predicate Mirrored(g: Graph)
    reads g.nodes, g.transforms
  {
    forall n :: n in g.nodes && n.transform in g.transforms ==>
      n.transform.parent == TransformOf(n.parent) && n.transform.children == TransformsOf(n.children)
  }

  ghost predicate Scene(g: Graph)
    reads g.nodes, g.transforms
  {
    && Linked(g.transforms) && Coherent(g.transforms) && Flagged(g.transforms)
    && NodesLinked(g.nodes) && OwnTransforms(g) && Mirrored(g)
  }

  // --------------------------------------------------------------- moving a subtree

  ghost function Detached(f: Forest, t: Transform, from: Transform?): Forest
    requires Rooted(f) && t in f
  {
    if from == null then f else Moved(f, t, null)
  }

  ghost function Readded(f: Forest, t: Transform, from: Transform?, to: Transform): Forest
    requires Rooted(f) && t in f && to in f
  {
    MovedIsRooted(f, t, null);
    Moved(Detached(f, t, from), t, to)
  }

  lemma DetachedKeepsBelow(f: Forest, t: Transform, from: Transform?, to: Transform)
    requires Rooted(f) && t in f && to in f && !Below(f, to, t)
    ensures Rooted(Detached(f, t, from)) && t in Detached(f, t, from) && to in Detached(f, t, from)
    ensures !Below(Detached(f, t, from), to, t)
    ensures from == null ==> Detached(f, t, from) == f
    ensures from != null ==> Detached(f, t, from) == Moved(f, t, null)
    ensures Readded(f, t, from, to) == Moved(Detached(f, t, from), t, to)
  {
    MovedIsRooted(f, t, null);
    MovedBelow(f, t, null, to);
  }

  // A node added elsewhere takes its subtree along: its world matrix hangs off the new
  // parent's, and what is not below it stays where it was.
  lemma ReaddedWorld(f: Forest, t: Transform, from: Transform?, to: Transform, x: Transform)
    requires Rooted(f) && t in f && to in f && x in f && !Below(f, to, t)
    ensures var g := Readded(f, t, from, to);
            && Rooted(g) && x in g && t in g && g[x].Local() == f[x].Local()
            && World(g, t) == Multiply(World(f, to), f[t].Local())
            && (!Below(f, x, t) ==> World(g, x) == World(f, x))
  {
    MovedIsRooted(f, t, null);
    var d := Detached(f, t, from);
    MovedBelow(f, t, null, to);
    MovedBelow(f, t, null, x);
    MovedWorld(d, t, to);
    MovedKeepsOthers(f, t, null, to);
    if !Below(f, x, t) {
      MovedKeepsOthers(f, t, null, x);
      MovedKeepsOthers(d, t, to, x);
    }
  }

  // ------------------------------------------------------------ facts for the methods

  lemma SceneParts(g: Graph)
    requires Scene(g)
    ensures Linked(g.transforms) && Coherent(g.transforms) && Flagged(g.transforms)
    ensures NodesLinked(g.nodes) && OwnTransforms(g) && Mirrored(g)
    ensures Rooted(Snapshot(g.transforms))
  {
    LinkedIsRooted(g.transforms);
  }

  lemma SnapshotOf(g: Graph, n: Node)
    requires Scene(g) && n in g.nodes
    ensures n.transform in g.transforms && n.transform in Snapshot(g.transforms)
    ensures n.transform.parent == TransformOf(n.parent)
  {
  }

  lemma TransformNull(n: Node?)
    ensures TransformOf(n) == null <==> n == null
  {
  }

  lemma ParentNodeIn(g: Graph, c: Node)
    requires Scene(g) && c in g.nodes && c.parent != null
    ensures c.parent in g.nodes
  {
  }

  lemma ListedIffParent(g: Graph, n: Node, c: Node)
    requires NodesLinked(g.nodes) && n in g.nodes && c in g.nodes
    ensures c in n.children <==> c.parent == n
  {
  }

  lemma NotThere(xs: seq<Node>, x: Node)
    requires IndexOf(xs, x) == -1
    ensures x !in xs && Without(xs, x) == xs
  {
  }

  lemma WithoutIs(xs: seq<Node>, x: Node)
    requires IndexOf(xs, x) != -1
    ensures x in xs && Without(xs, x) == Splice(xs, IndexOf(xs, x))
  {
  }

  lemma ChildParts(g: Graph, n: Node, c: Node)
    requires Scene(g) && n in g.nodes && c in n.children
    ensures c in g.nodes && c.parent == n && c != n && c.transform in g.transforms && n.transform in g.transforms
    ensures c.transform.parent == n.transform && c.transform != n.transform
  {
    ParentIn(g.transforms, c.transform);
  }

  twostate lemma RemovedLinks(ns: set<Node>, new n: Node, new c: Node)
    requires old(NodesLinked(ns)) && n in ns && c in ns && old(c in n.children)
    requires forall m :: m in ns ==>
               && m.children == (if m == n then Without(old(m.children), c) else old(m.children))
               && m.parent == (if m == c then null else old(m.parent))
    ensures NodesLinked(ns)
  {
    hide Without, Distinct;
    WithoutDistinct(old(n.children), c);
    forall m
      ensures m in n.children <==> m in old(n.children) && m != c
    {
      WithoutMember(old(n.children), c, m);
    }
  }

  twostate lemma AddedLinks(ns: set<Node>, new n: Node, new c: Node)
    requires old(NodesLinked(ns)) && n in ns && c in ns && old(c.parent) == null
    requires forall m :: m in ns ==>
               && m.children == old(m.children) + (if m == n then [c] else [])
               && m.parent == (if m == c then n else old(m.parent))
    ensures NodesLinked(ns)
  {
    AppendSpec(old(n.children), c);
  }

  lemma {:induction false} IndexOfTransform(g: Graph, xs: seq<Node>, c: Node)
    requires OwnTransforms(g) && c in g.nodes && forall x :: x in xs ==> x in g.nodes
    ensures IndexOf(TransformsOf(xs), c.transform) == IndexOf(xs, c)
  {
    if xs != [] {
      IndexOfTransform(g, xs[1..], c);
      assert TransformsOf(xs)[1..] == TransformsOf(xs[1..]);
    }
  }

  lemma TransformsOfWithout(g: Graph, xs: seq<Node>, c: Node)
    requires OwnTransforms(g) && c in g.nodes && forall x :: x in xs ==> x in g.nodes
    ensures TransformsOf(Without(xs, c)) == Without(TransformsOf(xs), c.transform)
  {
    IndexOfTransform(g, xs, c);
    var ts := TransformsOf(xs);
    if c in xs {
      var i := IndexOf(xs, c);
      assert TransformsOf(Splice(xs, i)) == Splice(ts, i);
      assert c.transform == ts[i];
    } else {
      assert c.transform !in ts;
    }
  }

  twostate lemma SceneAfterRemove(g: Graph, new n: Node, new c: Node)
    requires old(Scene(g)) && n in g.nodes && c in g.nodes && old(c in n.children)
    requires NodesLinked(g.nodes) && Linked(g.transforms) && Coherent(g.transforms) && Flagged(g.transforms)
    requires forall m :: m in g.nodes ==>
               && m.children == (if m == n then Without(old(m.children), c) else old(m.children))
               && m.parent == (if m == c then null else old(m.parent))
    requires c.transform.parent == null
    requires forall x :: x in g.transforms && x != c.transform ==> x.parent == old(x.parent)
    requires forall x :: x in g.transforms ==>
               x.children == ChildrenAfter(old(x.children), x, c.transform, n.transform, null)
    ensures Scene(g)
  {
    hide Linked, Coherent, Flagged, Without, TransformsOf;
    forall m | m in g.nodes
      ensures m.transform.parent == TransformOf(m.parent)
      ensures m.transform.children == TransformsOf(m.children)
    {
      assert old(m.transform.children) == TransformsOf(old(m.children));
      if m == n {
        TransformsOfWithout(g, old(n.children), c);
      }
    }
  }

  lemma OneMoreTransform(ns: seq<Node>, c: Node)
    ensures TransformsOf(ns + [c]) == TransformsOf(ns) + [c.transform]
    ensures TransformsOf(ns + []) == TransformsOf(ns)
  {
    assert ns + [] == ns;
  }

  twostate lemma SceneAfterAdd(g: Graph, new n: Node, new c: Node)
    requires old(Scene(g)) && n in g.nodes && c in g.nodes && old(c.parent) == null
    requires NodesLinked(g.nodes) && Linked(g.transforms) && Coherent(g.transforms) && Flagged(g.transforms)
    requires forall m :: m in g.nodes ==>
               && m.children == old(m.children) + (if m == n then [c] else [])
               && m.parent == (if m == c then n else old(m.parent))
    requires c.transform.parent == n.transform
    requires forall x :: x in g.transforms && x != c.transform ==> x.parent == old(x.parent)
    requires forall x :: x in g.transforms ==>
               x.children == ChildrenAfter(old(x.children), x, c.transform, null, n.transform)
    ensures Scene(g)
  {
    hide Linked, Coherent, Flagged, NodesLinked, TransformsOf;
    forall m | m in g.nodes
      ensures m.transform.parent == TransformOf(m.parent)
      ensures m.transform.children == TransformsOf(m.children)
    {
      assert old(m.transform.children) == TransformsOf(old(m.children));
      OneMoreTransform(old(m.children), c);
    }
  }

  // ---------------------------------------------------------------------- traversal

  ghost function Room(g: Graph, n: Node): nat
    requires Scene(g) && n in g.nodes
    reads g.nodes, g.transforms
  {
    TopRank(g.transforms) - n.transform.rank
  }

  lemma ChildBelow(g: Graph, n: Node, i: nat)
    requires Scene(g) && n in g.nodes && i < |n.children|
    ensures n.children[i] in g.nodes && n.children[i].parent == n
    ensures Room(g, n.children[i]) < Room(g, n)
  {
    ChildParts(g, n, n.children[i]);
    ParentIn(g.transforms, n.children[i].transform);
  }

  ghost function Preorder(g: Graph, n: Node, visit: Node -> bool): seq<Node>
    requires Scene(g) && n in g.nodes
    reads g.nodes, g.transforms
    decreases Room(g, n), 1, 0
  {
    [n] + if visit(n) then Preorders(g, n, |n.children|, visit) else []
  }

  // The preorders of n's first k children, one after the other.
  ghost function Preorders(g: Graph, n: Node, k: nat, visit: Node -> bool): seq<Node>
    requires Scene(g) && n in g.nodes && k <= |n.children|
    reads g.nodes, g.transforms
    decreases Room(g, n), 0, k
  {
    if k == 0 then [] else
    ChildBelow(g, n, k - 1);
    Preorders(g, n, k - 1, visit) + Preorder(g, n.children[k - 1], visit)
  }

  lemma PreorderIs(g: Graph, n: Node, visit: Node -> bool)
    requires Scene(g) && n in g.nodes
    ensures Preorders(g, n, 0, visit) == []
    ensures Preorder(g, n, visit) == [n] + if visit(n) then Preorders(g, n, |n.children|, visit) else []
  {
  }

  lemma PreordersStep(g: Graph, n: Node, k: nat, visit: Node -> bool)
    requires Scene(g) && n in g.nodes && k < |n.children|
    ensures n.children[k] in g.nodes
    ensures Preorders(g, n, k + 1, visit) == Preorders(g, n, k, visit) + Preorder(g, n.children[k], visit)
  {
    hide Scene, Preorder;
    ChildBelow(g, n, k);
  }

  lemma ParentBelow(g: Graph, x: Node)
    requires Scene(g) && x in g.nodes && x.parent != null
    ensures x.parent in g.nodes && x in x.parent.children && x.parent.transform.rank < x.transform.rank
  {
    ChildParts(g, x.parent, x);
    ParentIn(g.transforms, x.transform);
  }

  // x is root, or hangs below it with nothing on the way pruned.
  ghost predicate Reached(g: Graph, x: Node, root: Node, visit: Node -> bool)
    requires Scene(g) && x in g.nodes
    reads g.nodes, g.transforms
    decreases x.transform.rank
  {
    x == root || (x.parent != null && (ParentBelow(g, x); visit(x.parent) && Reached(g, x.parent, root, visit)))
  }

  lemma {:induction false} ReachedFromParent(g: Graph, x: Node, c: Node, visit: Node -> bool)
    requires Scene(g) && x in g.nodes && c in g.nodes && c.parent != null && visit(c.parent) && Reached(g, x, c, visit)
    ensures Reached(g, x, c.parent, visit)
    decreases x.transform.rank
  {
    hide Scene;
    ParentBelow(g, c);
    if x != c {
      ParentBelow(g, x);
      ReachedFromParent(g, x.parent, c, visit);
    }
  }

  lemma {:induction false} VisitedIsReached(g: Graph, n: Node, visit: Node -> bool, x: Node)
    requires Scene(g) && n in g.nodes && x in Preorder(g, n, visit)
    ensures x in g.nodes && Reached(g, x, n, visit)
    decreases Room(g, n), 1, 0
  {
    hide Scene;
    if x != n {
      var j := VisitedUnderChild(g, n, |n.children|, visit, x);
      ChildBelow(g, n, j);
      ReachedFromParent(g, x, n.children[j], visit);
    }
  }

  lemma {:induction false} VisitedUnderChild(g: Graph, n: Node, k: nat, visit: Node -> bool, x: Node) returns (j: nat)
    requires Scene(g) && n in g.nodes && k <= |n.children| && x in Preorders(g, n, k, visit)
    ensures j < k && n.children[j] in g.nodes && x in g.nodes && Reached(g, x, n.children[j], visit)
    decreases Room(g, n), 0, k
  {
    hide Scene, Reached, Preorder;
    ChildBelow(g, n, k - 1);
    if x in Preorders(g, n, k - 1, visit) {
      j := VisitedUnderChild(g, n, k - 1, visit, x);
    } else {
      j := k - 1;
      VisitedIsReached(g, n.children[j], visit, x);
    }
  }

  lemma {:induction false} ReachedUnderChild(g: Graph, n: Node, visit: Node -> bool, x: Node) returns (j: nat)
    requires Scene(g) && n in g.nodes && x in g.nodes && x != n && Reached(g, x, n, visit)
    ensures visit(n) && j < |n.children| && n.children[j] in g.nodes && Reached(g, x, n.children[j], visit)
    decreases x.transform.rank
  {
    hide Scene;
    ParentBelow(g, x);
    if x.parent == n {
      j :| 0 <= j < |n.children| && n.children[j] == x;
    } else {
      j := ReachedUnderChild(g, n, visit, x.parent);
    }
  }

  lemma {:induction false} InPreorders(g: Graph, n: Node, j: nat, k: nat, visit: Node -> bool, x: Node)
    requires Scene(g) && n in g.nodes && j < k <= |n.children| && n.children[j] in g.nodes
    requires x in Preorder(g, n.children[j], visit)
    ensures x in Preorders(g, n, k, visit)
  {
    hide Scene, Preorder;
    ChildBelow(g, n, k - 1);
    if j < k - 1 {
      InPreorders(g, n, j, k - 1, visit, x);
    }
  }

  lemma {:induction false} ReachedIsVisited(g: Graph, n: Node, visit: Node -> bool, x: Node)
    requires Scene(g) && n in g.nodes && x in g.nodes && Reached(g, x, n, visit)
    ensures x in Preorder(g, n, visit)
    decreases Room(g, n)
  {
    hide Scene, Reached;
    if x != n {
      var j := ReachedUnderChild(g, n, visit, x);
      ChildBelow(g, n, j);
      ReachedIsVisited(g, n.children[j], visit, x);
      InPreorders(g, n, j, |n.children|, visit, x);
    }
  }

  lemma ListedOnce(g: Graph, n: Node, i: nat, j: nat)
    requires Scene(g) && n in g.nodes && i < j < |n.children|
    ensures n.children[i] != n.children[j]
  {
  }

  lemma {:induction false} ReachedRank(g: Graph, x: Node, root: Node, visit: Node -> bool)
    requires Scene(g) && x in g.nodes && Reached(g, x, root, visit)
    ensures root.transform.rank <= x.transform.rank
    decreases x.transform.rank
  {
    hide Scene;
    if x != root {
      ParentBelow(g, x);
      ReachedRank(g, x.parent, root, visit);
    }
  }

  lemma {:induction false} OneRoot(g: Graph, x: Node, a: Node, b: Node, visit: Node -> bool)
    requires Scene(g) && x in g.nodes && a in g.nodes && b in g.nodes && a.parent != null && a.parent == b.parent
    requires Reached(g, x, a, visit) && Reached(g, x, b, visit)
    ensures a == b
    decreases x.transform.rank
  {
    hide Scene;
    ParentBelow(g, a);
    ParentBelow(g, b);
    if x == a {
      if a != b { ReachedRank(g, a.parent, b, visit); }
    } else if x == b {
      ReachedRank(g, b.parent, a, visit);
    } else {
      ParentBelow(g, x);
      OneRoot(g, x.parent, a, b, visit);
    }
  }

  lemma {:induction false} VisitedOnce(g: Graph, n: Node, visit: Node -> bool)
    requires Scene(g) && n in g.nodes
    ensures Distinct(Preorder(g, n, visit))
    decreases Room(g, n), 1, 0
  {
    hide Scene;
    if visit(n) {
      var below := Preorders(g, n, |n.children|, visit);
      ChildrenVisitedOnce(g, n, |n.children|, visit);
      forall x | x in below
        ensures x != n
      {
        var j := VisitedUnderChild(g, n, |n.children|, visit, x);
        ChildBelow(g, n, j);
        ReachedRank(g, x, n.children[j], visit);
      }
      JoinDistinct([n], below);
    }
  }

  lemma {:induction false} ChildrenVisitedOnce(g: Graph, n: Node, k: nat, visit: Node -> bool)
    requires Scene(g) && n in g.nodes && k <= |n.children|
    ensures Distinct(Preorders(g, n, k, visit))
    decreases Room(g, n), 0, k
  {
    hide Scene, Preorder, Reached;
    if k == 0 {
      return;
    }
    ChildBelow(g, n, k - 1);
    var before, last := Preorders(g, n, k - 1, visit), Preorder(g, n.children[k - 1], visit);
    ChildrenVisitedOnce(g, n, k - 1, visit);
    VisitedOnce(g, n.children[k - 1], visit);
    forall x | x in before
      ensures x !in last
    {
      var j := VisitedUnderChild(g, n, k - 1, visit, x);
      if x in last {
        ChildBelow(g, n, j);
        VisitedIsReached(g, n.children[k - 1], visit, x);
        OneRoot(g, x, n.children[j], n.children[k - 1], visit);
        ListedOnce(g, n, j, k - 1);
      }
    }
    JoinDistinct(before, last);
  }

  lemma {:induction false} PartOfChildren(g: Graph, n: Node, i: nat, k: nat, visit: Node -> bool)
    requires Scene(g) && n in g.nodes && i < k <= |n.children|
    ensures n.children[i] in g.nodes && Part(Preorder(g, n.children[i], visit), Preorders(g, n, k, visit))
    decreases k
  {
    hide Scene, Preorder, Preorders, Part;
    ChildBelow(g, n, i);
    PreordersStep(g, n, k - 1, visit);
    if i < k - 1 {
      PartOfChildren(g, n, i, k - 1, visit);
      PartsOfJoin(Preorders(g, n, k - 1, visit), Preorder(g, n.children[k - 1], visit));
      PartOfPart(Preorder(g, n.children[i], visit), Preorders(g, n, k - 1, visit), Preorders(g, n, k, visit));
    } else {
      PartsOfJoin(Preorders(g, n, k - 1, visit), Preorder(g, n.children[i], visit));
    }
  }

  // What a reached node starts is one piece of the whole traversal.
  lemma {:induction false} ReachedIsPart(g: Graph, x: Node, root: Node, visit: Node -> bool)
    requires Scene(g) && x in g.nodes && root in g.nodes && Reached(g, x, root, visit)
    ensures Part(Preorder(g, x, visit), Preorder(g, root, visit))
    decreases x.transform.rank
  {
    hide Scene, Preorder, Preorders, Part;
    if x == root {
      PartsOfJoin(Preorder(g, x, visit), []);
      assert Preorder(g, x, visit) + [] == Preorder(g, x, visit);
    } else {
      ParentBelow(g, x);
      var p: Node := x.parent;
      var i :| 0 <= i < |p.children| && p.children[i] == x;
      PreorderIs(g, p, visit);
      PartOfChildren(g, p, i, |p.children|, visit);
      PartsOfJoin([p], Preorders(g, p, |p.children|, visit));
      PartOfPart(Preorder(g, x, visit), Preorders(g, p, |p.children|, visit), Preorder(g, p, visit));
      ReachedIsPart(g, p, root, visit);
      PartOfPart(Preorder(g, x, visit), Preorder(g, p, visit), Preorder(g, root, visit));
    }
  }

  lemma {:induction false} SiblingsInOrder(g: Graph, n: Node, i: nat, j: nat, k: nat, visit: Node -> bool,
                                           a: Node, b: Node)
    requires Scene(g) && n in g.nodes && i < j < k <= |n.children|
    requires n.children[i] in g.nodes && a in Preorder(g, n.children[i], visit)
    requires n.children[j] in g.nodes && b in Preorder(g, n.children[j], visit)
    ensures Earlier(Preorders(g, n, k, visit), a, b)
    decreases k
  {
    hide Scene, Preorder, Preorders, Part, Earlier;
    PreordersStep(g, n, k - 1, visit);
    var before, last := Preorders(g, n, k - 1, visit), Preorder(g, n.children[k - 1], visit);
    if j < k - 1 {
      SiblingsInOrder(g, n, i, j, k - 1, visit, a, b);
      PartsOfJoin(before, last);
      EarlierInPart(before, before + last, a, b);
    } else {
      PartOfChildren(g, n, i, k - 1, visit);
      MemberOfPart(Preorder(g, n.children[i], visit), before, a);
      EarlierAcross(before, last, a, b);
    }
  }

  // Parents come before what is below them, and what is below one child before what is
  // below the next.
  lemma TraversalOrder(g: Graph, root: Node, visit: Node -> bool, n: Node, i: nat, j: nat, a: Node, b: Node)
    requires Scene(g) && root in g.nodes && n in g.nodes && Reached(g, n, root, visit) && visit(n)
    requires a in g.nodes && i < |n.children| && n.children[i] in g.nodes && Reached(g, a, n.children[i], visit)
    ensures Earlier(Preorder(g, root, visit), n, a)
    ensures i < j < |n.children| && n.children[j] in g.nodes && b in g.nodes && Reached(g, b, n.children[j], visit) ==>
              Earlier(Preorder(g, root, visit), a, b)
  {
    hide Scene, Preorder, Preorders, Part, Earlier, Reached;
    var whole, below := Preorder(g, n, visit), Preorders(g, n, |n.children|, visit);
    ReachedIsPart(g, n, root, visit);
    PreorderIs(g, n, visit);
    PartOfChildren(g, n, i, |n.children|, visit);
    ReachedIsVisited(g, n.children[i], visit, a);
    MemberOfPart(Preorder(g, n.children[i], visit), below, a);
    EarlierAcross([n], below, n, a);
    EarlierInPart(whole, Preorder(g, root, visit), n, a);
    if i < j < |n.children| && n.children[j] in g.nodes && b in g.nodes && Reached(g, b, n.children[j], visit) {
      ReachedIsVisited(g, n.children[j], visit, b);
      SiblingsInOrder(g, n, i, j, |n.children|, visit, a, b);
      PartsOfJoin([n], below);
      EarlierInPart(below, whole, a, b);
      EarlierInPart(whole, Preorder(g, root, visit), a, b);
    }
  }

  // traverse visits exactly the nodes reached, each of them once.
  lemma TraversalVisits(g: Graph, n: Node, visit: Node -> bool)
    requires Scene(g) && n in g.nodes
    ensures forall x :: x in Preorder(g, n, visit) ==> x in g.nodes
    ensures forall x :: x in g.nodes ==> (x in Preorder(g, n, visit) <==> Reached(g, x, n, visit))
    ensures Distinct(Preorder(g, n, visit))
  {
    hide Scene, Preorder, Reached;
    forall x | x in Preorder(g, n, visit)
      ensures x in g.nodes && Reached(g, x, n, visit)
    {
      VisitedIsReached(g, n, visit, x);
    }
    forall x | x in g.nodes && Reached(g, x, n, visit)
      ensures x in Preorder(g, n, visit)
    {
      ReachedIsVisited(g, n, visit, x);
    }
    VisitedOnce(g, n, visit);
  }

  // ------------------------------------------------------------------------ the nodes

  class Node {
    const transform: Transform
    var children: seq<Node>
    var parent: Node?

    constructor ()
      ensures children == [] && parent == null
      ensures fresh(transform) && transform.LinkOf() == Link(ZERO3, NO_ROTATION, ONE3, null, 0)
      ensures transform.children == [] && transform.matrixDirty && transform.worldDirty
    {
      this.transform := new Transform(ZERO3, NO_ROTATION, ONE3);
      this.children := [];
      this.parent := null;
    }

    method RemoveChild(child: Node, ghost g: Graph)
      requires this in g.nodes && child in g.nodes && Scene(g)
      modifies g.nodes, g.transforms`parent, g.transforms`children, g.transforms`rank, g.transforms`worldDirty
      ensures Scene(g)
      ensures forall n :: n in g.nodes ==>
                n.children == if n == this then Without(old(n.children), child) else old(n.children)
      ensures forall n :: n in g.nodes ==>
                n.parent == if n == child && old(child.parent) == this then null else old(n.parent)
      ensures Rooted(old(Snapshot(g.transforms)))
      ensures Snapshot(g.transforms) ==
              if old(child.parent) == this then Moved(old(Snapshot(g.transforms)), child.transform, null)
              else old(Snapshot(g.transforms))
    {
      hide *;
      SceneParts(g);
      SnapshotOf(g, child);
      ListedIffParent(g, this, child);
      var index := IndexOf(children, child);
      if index == -1 {
        NotThere(children, child);
        return;
      }
      WithoutIs(children, child);
      ChildParts(g, this, child);
      children := Splice(children, index);
      child.parent := null;
      RemovedLinks(g.nodes, this, child);
      if child.transform.parent == transform {
        child.transform.SetParent(null, g.transforms);
      }
      SceneAfterRemove(g, this, child);
    }

    // Adding detaches the child from wherever it was first.
    method AddChild(child: Node, ghost g: Graph)
      requires this in g.nodes && child in g.nodes && Scene(g)
      requires Rooted(Snapshot(g.transforms)) && this.transform in Snapshot(g.transforms)
      requires !Below(Snapshot(g.transforms), this.transform, child.transform)
      modifies g.nodes, g.transforms`parent, g.transforms`children, g.transforms`rank, g.transforms`worldDirty
      ensures Scene(g)
      ensures forall n :: n in g.nodes ==> n.parent == if n == child then this else old(n.parent)
      ensures forall n :: n in g.nodes ==>
                n.children == (if n == old(child.parent) then Without(old(n.children), child) else old(n.children))
                              + (if n == this then [child] else [])
      ensures Snapshot(g.transforms)
           == Readded(old(Snapshot(g.transforms)), child.transform, old(TransformOf(child.parent)), transform)
    {
      hide *;
      ghost var f := Snapshot(g.transforms);
      ghost var from := child.parent;
      SceneParts(g);
      SnapshotOf(g, child);
      DetachedKeepsBelow(f, child.transform, TransformOf(from), transform);
      TransformNull(from);
      if child.parent != null {
        ParentNodeIn(g, child);
        child.parent.RemoveChild(child, g);
      }
      Attach(child, g);
    }

    method Attach(child: Node, ghost g: Graph)
      requires this in g.nodes && child in g.nodes && Scene(g) && child.parent == null
      requires Rooted(Snapshot(g.transforms)) && this.transform in Snapshot(g.transforms)
      requires !Below(Snapshot(g.transforms), this.transform, child.transform)
      modifies g.nodes, g.transforms`parent, g.transforms`children, g.transforms`rank, g.transforms`worldDirty
      ensures Scene(g)
      ensures forall n :: n in g.nodes ==> n.parent == if n == child then this else old(n.parent)
      ensures forall n :: n in g.nodes ==> n.children == old(n.children) + (if n == this then [child] else [])
      ensures Snapshot(g.transforms) == Moved(old(Snapshot(g.transforms)), child.transform, transform)
    {
      hide *;
      SceneParts(g);
      SnapshotOf(g, child);
      SnapshotOf(g, this);
      TransformNull(child.parent);
      child.parent := this;
      children := children + [child];
      AddedLinks(g.nodes, this, child);
      child.transform.SetParent(transform, g.transforms);
      SceneAfterAdd(g, this, child);
    }

    // Calls visit on this node and, unless it says no, on everything below, parents first.
    method Traverse(visit: Node -> bool, ghost g: Graph) returns (visited: seq<Node>)
      requires this in g.nodes && Scene(g)
      ensures visited == Preorder(g, this, visit)
      decreases Room(g, this)
    {
      hide *;
      visited := [this];
      PreorderIs(g, this, visit);
      if !visit(this) {
        return;
      }
      for i := 0 to |children|
        invariant visited == [this] + Preorders(g, this, i, visit)
      {
        ChildBelow(g, this, i);
        PreordersStep(g, this, i, visit);
        var below := children[i].Traverse(visit, g);
        visited := visited + below;
      }
    }
  }

  // ------------------------------------------------------------------ making nodes

  ghost function Grown(g: Graph, n: Node): Graph {
    Graph(g.nodes + {n}, g.transforms + {n.transform})
  }

  // A node as the constructor leaves it may join any scene that is in order.
  lemma NodeJoins(g: Graph, n: Node)
    requires Scene(g) && n !in g.nodes && n.transform !in g.transforms
    requires n.parent == null && n.children == []
    requires n.transform.parent == null && n.transform.children == []
    requires n.transform.matrixDirty && n.transform.worldDirty
    ensures Scene(Grown(g, n))
    ensures Snapshot(Grown(g, n).transforms) == Snapshot(g.transforms)[n.transform := n.transform.LinkOf()]
  {
    hide Linked, Coherent, Flagged;
    FreshJoins(g.transforms, n.transform);
  }

  twostate lemma SceneUntouched(g: Graph)
    requires old(Scene(g)) && unchanged(g.nodes) && unchanged(g.transforms)
    ensures Scene(g) && Snapshot(g.transforms) == old(Snapshot(g.transforms))
  {
    hide Linked, Coherent, Flagged;
    Untouched(g.transforms);
  }

  method CreateNode(ghost g: Graph) returns (n: Node)
    requires Scene(g)
    ensures fresh(n) && fresh(n.transform) && n.parent == null && n.children == []
    ensures Scene(Grown(g, n))
    ensures Snapshot(Grown(g, n).transforms)
         == old(Snapshot(g.transforms))[n.transform := Link(ZERO3, NO_ROTATION, ONE3, null, 0)]
  {
    hide Scene;
    n := new Node();
    SceneUntouched(g);
    NodeJoins(g, n);
  }

  // ------------------------------------------- reparenting behind the nodes' backs

  twostate lemma SceneAfterExecute(g: Graph)
    requires old(Scene(g)) && unchanged(g.nodes)
    requires Linked(g.transforms) && Coherent(g.transforms) && Flagged(g.transforms)
    requires forall x :: x in g.transforms ==> x.children == old(x.children) && x.parent == old(x.parent)
    ensures Scene(g)
  {
    hide Linked, Coherent, Flagged;
  }

  // Some node of the scene has this transform.
  ghost predicate Owned(nodes: set<Node>, t: Transform) {
    exists n :: n in nodes && n.transform == t
  }

  // The two trees stay together exactly if nothing moves, or neither the transform nor the
  // new parent belongs to a node.
  ghost predicate KeepsMirror(nodes: set<Node>, from: Transform?, t: Transform, p: Transform?) {
    from == p || (!Owned(nodes, t) && (p == null || !Owned(nodes, p)))
  }

  // A transform without a node has no parent with one.
  twostate lemma StrayParent(g: Graph, new t: Transform, new n: Node)
    requires old(Scene(g)) && t in g.transforms && n in g.nodes && old(t.parent) == n.transform
    ensures Owned(g.nodes, t)
  {
    hide Coherent, Flagged;
    var ts, ns := old(n.transform.children), old(n.children);
    assert t in ts && ts == TransformsOf(ns);
    var i :| 0 <= i < |ts| && ts[i] == t;
    assert ts[i] == ns[i].transform && ns[i] in g.nodes;
  }

  twostate lemma MirrorAfterReparent(g: Graph, new t: Transform, new p: Transform?)
    requires old(Scene(g)) && unchanged(g.nodes) && t in g.transforms && t.parent == p != old(t.parent)
    requires Linked(g.transforms) && Coherent(g.transforms) && Flagged(g.transforms)
    requires forall x :: x in g.transforms && x != t ==> x.parent == old(x.parent)
    requires forall x :: x in g.transforms ==>
               x.children == ChildrenAfter(old(x.children), x, t, old(t.parent), p)
    ensures Scene(g) <==> KeepsMirror(g.nodes, old(t.parent), t, p)
  {
    hide Linked, Coherent, Flagged, TransformsOf;
    if KeepsMirror(g.nodes, old(t.parent), t, p) {
      forall n | n in g.nodes
        ensures n.transform.parent == TransformOf(n.parent) && n.transform.children == TransformsOf(n.children)
      {
        assert n.transform != t;
        if n.transform == old(t.parent) {
          StrayParent(g, t, n);
        }
      }
    } else if n :| n in g.nodes && n.transform == t {
      assert old(n.transform.parent) == TransformOf(n.parent);
    } else {
      var m :| m in g.nodes && m.transform == p;
      assert old(m.transform.children) == TransformsOf(m.children);
      assert |m.transform.children| == |old(m.transform.children)| + 1;
    }
  }

  lemma LegalParent(s: set<Transform>, t: Transform, p: Transform?)
    requires Legal(Snapshot(s), SetParentOp(t, p))
    ensures t in s && (p != null ==> p in s) && Snapshot(s)[t].parent == t.parent
  {
    hide Below;
  }

  // node.transform.parent = p, past the nodes.
  method AssignParent(t: Transform, p: Transform?, ghost g: Graph)
    requires Scene(g) && Legal(Snapshot(g.transforms), SetParentOp(t, p))
    modifies g.transforms
    ensures Linked(g.transforms) && Coherent(g.transforms) && Flagged(g.transforms) && NodesLinked(g.nodes)
    ensures t.parent == p && Snapshot(g.transforms) == Step(old(Snapshot(g.transforms)), SetParentOp(t, p))
    ensures Scene(g) <==> KeepsMirror(g.nodes, old(t.parent), t, p)
  {
    hide Scene, Below, Moved, Owned, Linked, Coherent, Flagged, NodesLinked, OwnTransforms, Mirrored, Rooted, Snapshot;
    SceneParts(g);
    LegalParent(g.transforms, t, p);
    t.SetParent(p, g.transforms);
    if old(t.parent) == p {
      SceneAfterExecute(g);
    } else {
      MirrorAfterReparent(g, t, p);
    }
  }

  lemma EmptyScene()
    ensures Scene(Graph({}, {}))
  {
  }

  lemma TwoRoots(g: Graph, a: Node, b: Node)
    requires Scene(g) && a in g.nodes && b in g.nodes && a != b && a.parent == null && b.parent == null
    ensures a.transform.parent == null && Owned(g.nodes, a.transform)
    ensures Legal(Snapshot(g.transforms), SetParentOp(a.transform, b.transform))
  {
    SceneParts(g);
    SnapshotOf(g, a);
    SnapshotOf(g, b);
  }

  // Two new nodes, one transform put under the other: the nodes do not follow.
  method ReparentingSplits() returns (a: Node, b: Node, ghost g: Graph)
    ensures g.nodes == {a, b} && g.transforms == {a.transform, b.transform}
    ensures NodesLinked(g.nodes) && Linked(g.transforms) && a.transform.parent == b.transform && a.parent == null
    ensures !Scene(g)
  {
    hide Scene, Owned, Legal, Linked, NodesLinked, Coherent, Flagged, OwnTransforms, Mirrored, Snapshot, Step, Rooted;
    g := Graph({}, {});
    EmptyScene();
    a := CreateNode(g);
    g := Grown(g, a);
    b := CreateNode(g);
    g := Grown(g, b);
    TwoRoots(g, a, b);
    AssignParent(a.transform, b.transform, g);
  }

  // ------------------------------------------------------------------- whole runs

  datatype Kin = Kin(parent: Node?, children: seq<Node>)

  // The node links and the forest of stored values, without caches.
  datatype State = State(family: map<Node, Kin>, forest: Forest)

  ghost function StateOf(g: Graph): State
    reads g.nodes, g.transforms
  {
    State(map n | n in g.nodes :: Kin(n.parent, n.children), Snapshot(g.transforms))
  }

  datatype SceneOp =
    | Add(n: Node, child: Node)
    | Remove(n: Node, child: Node)
    | On(op: Op)

  // Operations name nodes of the scene, adding makes no cycle, and transforms are assigned
  // a parent directly only where the two trees stay together.
  ghost predicate SceneLegal(st: State, op: SceneOp) {
    match op
    case Add(n, child) =>
      && n in st.family && child in st.family && Rooted(st.forest)
      && n.transform in st.forest && child.transform in st.forest && !Below(st.forest, n.transform, child.transform)
    case Remove(n, child) =>
      n in st.family && child in st.family && Rooted(st.forest) && child.transform in st.forest
    case On(op) =>
      && Legal(st.forest, op)
      && (op.SetParentOp? ==> KeepsMirror(st.family.Keys, st.forest[op.t].parent, op.t, op.p))
  }

  ghost function SceneStep(st: State, op: SceneOp): State
    requires SceneLegal(st, op)
  {
    match op
    case Add(n, child) =>
      var from := st.family[child].parent;
      State(map m | m in st.family ::
              Kin(if m == child then n else st.family[m].parent,
                  (if m == from then Without(st.family[m].children, child) else st.family[m].children)
                  + (if m == n then [child] else [])),
            Readded(st.forest, child.transform, TransformOf(from), n.transform))
    case Remove(n, child) =>
      var listed := st.family[child].parent == n;
      State(map m | m in st.family ::
              Kin(if m == child && listed then null else st.family[m].parent,
                  if m == n then Without(st.family[m].children, child) else st.family[m].children),
            if listed then Moved(st.forest, child.transform, null) else st.forest)
    case On(op) => st.(forest := Step(st.forest, op))
  }

  ghost function SceneAnswer(st: State, op: SceneOp): seq<Mat4>
    requires SceneLegal(st, op)
  {
    if op.On? then Answer(st.forest, op.op) else []
  }

  ghost predicate AllSceneLegal(st: State, ops: seq<SceneOp>)
    decreases |ops|
  {
    ops == [] || (SceneLegal(st, ops[0]) && AllSceneLegal(SceneStep(st, ops[0]), ops[1..]))
  }

  ghost function FinalState(st: State, ops: seq<SceneOp>): State
    requires AllSceneLegal(st, ops)
    decreases |ops|
  {
    if ops == [] then st else FinalState(SceneStep(st, ops[0]), ops[1..])
  }

  ghost function SceneAnswers(st: State, ops: seq<SceneOp>): seq<Mat4>
    requires AllSceneLegal(st, ops)
    decreases |ops|
  {
    if ops == [] then [] else SceneAnswer(st, ops[0]) + SceneAnswers(SceneStep(st, ops[0]), ops[1..])
  }

  twostate lemma AddedState(g: Graph, new n: Node, new child: Node)
    requires n in g.nodes && child in g.nodes && old(SceneLegal(StateOf(g), Add(n, child)))
    requires forall m :: m in g.nodes ==> m.parent == if m == child then n else old(m.parent)
    requires forall m :: m in g.nodes ==>
               m.children == (if m == old(child.parent) then Without(old(m.children), child) else old(m.children))
                             + (if m == n then [child] else [])
    requires Snapshot(g.transforms)
          == Readded(old(Snapshot(g.transforms)), child.transform, old(TransformOf(child.parent)), n.transform)
    ensures StateOf(g) == old(SceneStep(StateOf(g), Add(n, child)))
  {
    hide Readded, Without, Below, Snapshot, Rooted;
  }

  twostate lemma RemovedState(g: Graph, new n: Node, new child: Node)
    requires n in g.nodes && child in g.nodes && old(SceneLegal(StateOf(g), Remove(n, child)))
    requires forall m :: m in g.nodes ==>
               m.children == if m == n then Without(old(m.children), child) else old(m.children)
    requires forall m :: m in g.nodes ==>
               m.parent == if m == child && old(child.parent) == n then null else old(m.parent)
    requires Snapshot(g.transforms)
          == if old(child.parent) == n then Moved(old(Snapshot(g.transforms)), child.transform, null)
             else old(Snapshot(g.transforms))
    ensures StateOf(g) == old(SceneStep(StateOf(g), Remove(n, child)))
  {
    hide Moved, Without, Snapshot, Rooted;
  }

  lemma AssignLegal(g: Graph, op: Op)
    requires op.SetParentOp? && SceneLegal(StateOf(g), On(op))
    ensures KeepsMirror(g.nodes, op.t.parent, op.t, op.p) && Answer(Snapshot(g.transforms), op) == []
  {
    hide Owned, Below;
    assert StateOf(g).family.Keys == g.nodes;
  }

  method ExecuteOn(op: Op, ghost g: Graph) returns (answer: seq<Mat4>)
    requires Scene(g) && SceneLegal(StateOf(g), On(op))
    modifies g.nodes, g.transforms
    ensures Scene(g)
    ensures StateOf(g) == SceneStep(old(StateOf(g)), On(op)) && answer == SceneAnswer(old(StateOf(g)), On(op))
  {
    hide Scene, Below, Moved, Step, Answer, Legal, Rooted, Snapshot, KeepsMirror, Linked, Coherent, Flagged;
    hide NodesLinked;
    answer := [];
    SceneParts(g);
    if op.SetParentOp? {
      AssignLegal(g, op);
      AssignParent(op.t, op.p, g);
    } else {
      answer := Execute(op, g.transforms);
      SceneAfterExecute(g);
    }
  }

  method ExecuteScene(op: SceneOp, ghost g: Graph) returns (answer: seq<Mat4>)
    requires Scene(g) && SceneLegal(StateOf(g), op)
    modifies g.nodes, g.transforms
    ensures Scene(g)
    ensures StateOf(g) == SceneStep(old(StateOf(g)), op) && answer == SceneAnswer(old(StateOf(g)), op)
  {
    hide Scene, Below, Readded, Moved, Step, Answer, Without, Legal, Rooted, Snapshot, KeepsMirror;
    answer := [];
    match op {
      case Add(n, child) =>
        n.AddChild(child, g);
        AddedState(g, n, child);
      case Remove(n, child) =>
        n.RemoveChild(child, g);
        RemovedState(g, n, child);
      case On(op) =>
        answer := ExecuteOn(op, g);
    }
  }

  // Over any legal run the scene's links, and the world matrices it reports, are those of
  // the same steps on plain values.
  method RunScene(ops: seq<SceneOp>, ghost g: Graph) returns (answers: seq<Mat4>)
    requires Scene(g) && AllSceneLegal(StateOf(g), ops)
    modifies g.nodes, g.transforms
    ensures Scene(g)
    ensures StateOf(g) == FinalState(old(StateOf(g)), ops)
    ensures answers == SceneAnswers(old(StateOf(g)), ops)
  {
    hide Scene, SceneStep, SceneAnswer, SceneLegal, StateOf;
    answers := [];
    ghost var st := StateOf(g);
    assert ops[0..] == ops;
    for i := 0 to |ops|
      invariant Scene(g) && AllSceneLegal(StateOf(g), ops[i..])
      invariant FinalState(StateOf(g), ops[i..]) == FinalState(st, ops)
      invariant answers + SceneAnswers(StateOf(g), ops[i..]) == SceneAnswers(st, ops)
    {
      assert ops[i..][0] == ops[i] && ops[i..][1..] == ops[i + 1..];
      var answer := ExecuteScene(ops[i], g);
      answers := answers + answer;
    }
    assert ops[|ops|..] == [];
  }
}
