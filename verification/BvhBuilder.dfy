// buildBVH as it runs: triangles are loaded, node records are pushed before their
// children and patched afterwards, leaves push their triangles, and both lists are
// packed into the word buffers the shader reads.
module BvhBuilder {
  import opened Geometry
  import opened BvhTree
  import opened BvhLayout

  // ------------------------------------------------------------------ loading

  predicate IndicesInRange(vertices: seq<real>, indices: seq<nat>) {
    forall i :: 0 <= i < |indices| ==> 3 * indices[i] + 2 < |vertices|
  }

  function VertexAt(vertices: seq<real>, k: nat): Vec3
    requires 3 * k + 2 < |vertices|
  {
    Vec3(vertices[k * 3], vertices[k * 3 + 1], vertices[k * 3 + 2])
  }

  function TriangleAt(vertices: seq<real>, indices: seq<nat>, i: nat): Tri
    requires IndicesInRange(vertices, indices) && 3 * i + 2 < |indices|
  {
    var v0 := VertexAt(vertices, indices[3 * i]);
    var v1 := VertexAt(vertices, indices[3 * i + 1]);
    var v2 := VertexAt(vertices, indices[3 * i + 2]);
    Tri(v0, v1, v2,
        Vec3((v0.x + v1.x + v2.x) / 3.0, (v0.y + v1.y + v2.y) / 3.0, (v0.z + v1.z + v2.z) / 3.0), i)
  }

  function Scene(vertices: seq<real>, indices: seq<nat>): (s: seq<Tri>)
    requires IndicesInRange(vertices, indices)
    ensures |s| == |indices| / 3
  {
    seq(|indices| / 3, i requires 0 <= i < |indices| / 3 => TriangleAt(vertices, indices, i))
  }

  // Triangle i has the corners its three indices name, their mean for centroid, and its number.
  lemma SceneReads(vertices: seq<real>, indices: seq<nat>, i: nat, k: Axis, m: Axis)
    requires IndicesInRange(vertices, indices) && i < |indices| / 3
    ensures var t := Scene(vertices, indices)[i];
            && 3 * indices[3 * i + k] + m < |vertices|
            && t.Face().Corner(k).At(m) == vertices[3 * indices[3 * i + k] + m]
            && 3.0 * t.centroid.At(m) == t.Face().Corner(0).At(m) + t.Face().Corner(1).At(m) + t.Face().Corner(2).At(m)
            && t.index == i
  {
  }

  method LoadTriangles(vertices: seq<real>, indices: seq<nat>) returns (triangles: seq<Tri>)
    requires IndicesInRange(vertices, indices)
    ensures triangles == Scene(vertices, indices)
  {
    triangles := [];
    var triangleCount := |indices| / 3;
    for i := 0 to triangleCount
      invariant triangles == Scene(vertices, indices)[..i]
    {
      var i0, i1, i2 := indices[i * 3], indices[i * 3 + 1], indices[i * 3 + 2];
      var v0 := Vec3(vertices[i0 * 3], vertices[i0 * 3 + 1], vertices[i0 * 3 + 2]);
      var v1 := Vec3(vertices[i1 * 3], vertices[i1 * 3 + 1], vertices[i1 * 3 + 2]);
      var v2 := Vec3(vertices[i2 * 3], vertices[i2 * 3 + 1], vertices[i2 * 3 + 2]);
      var centroid := Vec3((v0.x + v1.x + v2.x) / 3.0, (v0.y + v1.y + v2.y) / 3.0, (v0.z + v1.z + v2.z) / 3.0);
      triangles := triangles + [Tri(v0, v1, v2, centroid, i)];
    }
  }

  // ------------------------------------------------------------------- bounds

  // The innermost loop: one corner, all three axes.
  method GrowBy(min: array<Ext>, max: array<Ext>, v: Vec3, ghost seen: seq<Vec3>)
    requires min.Length == 3 && max.Length == 3 && min != max
    requires forall i: Axis :: min[i] == Lowest(seen, i) && max[i] == Highest(seen, i)
    modifies min, max
    ensures forall i: Axis :: min[i] == Lowest(seen + [v], i) && max[i] == Highest(seen + [v], i)
  {
    ghost var after := seen + [v];
    assert after[..|seen|] == seen;
    for i := 0 to 3
      invariant forall m: Axis :: min[m] == Lowest(if m < i then after else seen, m)
      invariant forall m: Axis :: max[m] == Highest(if m < i then after else seen, m)
    {
      min[i] := Min(min[i], Fin(v.At(i)));
      max[i] := Max(max[i], Fin(v.At(i)));
    }
  }

  method ComputeBounds(tris: seq<Tri>) returns (b: Box)
    ensures b == Bounds(tris)
  {
    var min := new Ext[3](_ => PosInf);
    var max := new Ext[3](_ => NegInf);
    for j := 0 to |tris|
      invariant forall i: Axis :: min[i] == Lowest(Corners(tris[..j]), i)
      invariant forall i: Axis :: max[i] == Highest(Corners(tris[..j]), i)
    {
      var vs := [tris[j].v0, tris[j].v1, tris[j].v2];
      ghost var seen := Corners(tris[..j]);
      assert tris[..j + 1][..j] == tris[..j];
      assert Corners(tris[..j + 1]) == seen + vs;
      assert seen + vs[..0] == seen;
      for k := 0 to 3
        invariant forall i: Axis :: min[i] == Lowest(seen + vs[..k], i)
        invariant forall i: Axis :: max[i] == Highest(seen + vs[..k], i)
      {
        GrowBy(min, max, vs[k], seen + vs[..k]);
        assert seen + vs[..k] + [vs[k]] == seen + vs[..k + 1];
      }
      assert vs[..3] == vs;
    }
    assert tris[..|tris|] == tris;
    b := Box(Ext3(min[0], min[1], min[2]), Ext3(max[0], max[1], max[2]));
  }

  // -------------------------------------------------------------------- nodes

  // The two halves of the sorted scene, with the source's fallbacks for empty halves;
  // the contract shows that neither fallback is ever taken.
  method Halves(tris: seq<Tri>, box: Box) returns (left: seq<Tri>, right: seq<Tri>)
    requires |tris| > MAX_LEAF_SIZE
    ensures var s := SortBy(tris, LongestAxis(box)); left == s[..|tris| / 2] && right == s[|tris| / 2..]
    ensures 0 < |left| < |tris| && 0 < |right| < |tris|
    ensures box == Bounds(tris) ==> exists axis: Axis :: Widest(box, axis) && Apart(left, right, axis)
  {
    hide Bounds, Widest, SortBy, LongestAxis;
    Split(tris);
    var sorted := SortBy(tris, LongestAxis(box));
    var mid := |sorted| / 2;
    var cut := if 1 > mid then 1 else mid;
    var first, last := [tris[0]], [tris[|tris| - 1]];
    left, right := sorted[..cut], sorted[cut..];
    left := if |left| > 0 then left else first;
    right := if |right| > 0 then right else last;
    assert box == Bounds(tris) ==> Apart(left, right, LongestAxis(box));
  }

  lemma PatchLeft(now: seq<Record>, prefix: seq<Record>, box: Box, l: seq<Record>, child: nat)
    requires now == prefix + [Record(box, 0, 0)] + l
    ensures now[|prefix| := now[|prefix|].(leftOrFirst := child)] == prefix + [Record(box, child, 0)] + l
  {
  }

  lemma PatchRight(now: seq<Record>, prefix: seq<Record>, box: Box, l: seq<Record>, r: seq<Record>)
    requires now == prefix + [Record(box, |prefix| + 1, 0)] + l + r
    ensures now[|prefix| := now[|prefix|].(rightOrCount := 0)] == prefix + Parent(box, |prefix|, l, r)
  {
  }

  lemma FlattenInner(box: Box, l: Tree, r: Tree, at: nat, first: nat)
    ensures Flatten(Inner(box, l, r), at, first)
         == Parent(box, at, Flatten(l, at + 1, first), Flatten(r, at + 1 + Size(l), first + Count(l)))
  {
    hide Parent;
  }

  lemma OrderedInner(box: Box, l: Tree, r: Tree)
    ensures Ordered(Inner(box, l, r)) == Ordered(l) + Ordered(r)
  {
  }

  class Builder {
    var nodes: seq<Record>
    var orderedTriangles: seq<Tri>

    constructor ()
      ensures nodes == [] && orderedTriangles == []
    {
      nodes, orderedTriangles := [], [];
    }

    // The fallbacks for empty halves are kept; the specification shows neither is taken.
    method BuildNode(tris: seq<Tri>) returns (nodeIndex: nat)
      modifies this
      ensures nodeIndex == |old(nodes)|
      ensures nodes == old(nodes) + Flatten(BuildTree(tris), |old(nodes)|, |old(orderedTriangles)|)
      ensures orderedTriangles == old(orderedTriangles) + Ordered(BuildTree(tris))
      decreases |tris|, 1
    {
      nodeIndex := |nodes|;
      var bounds := ComputeBounds(tris);
      nodes := nodes + [Record(bounds, 0, 0)];
      if |tris| <= MAX_LEAF_SIZE {
        nodes := nodes[nodeIndex := Record(bounds, |orderedTriangles|, |tris|)];
        PushAll(tris);
      } else {
        BuildChildren(tris, nodeIndex);
      }
    }

    method PushAll(tris: seq<Tri>)
      modifies this`orderedTriangles
      ensures orderedTriangles == old(orderedTriangles) + tris
    {
      for i := 0 to |tris|
        invariant orderedTriangles == old(orderedTriangles) + tris[..i]
      {
        orderedTriangles := orderedTriangles + [tris[i]];
      }
      assert tris[..|tris|] == tris;
    }

    // The last record is the parent's; it is patched once the children are in place.
    method BuildChildren(tris: seq<Tri>, nodeIndex: nat)
      requires |tris| > MAX_LEAF_SIZE
      requires |nodes| == nodeIndex + 1 && nodes[nodeIndex] == Record(Bounds(tris), 0, 0)
      modifies this
      ensures nodes == old(nodes)[..nodeIndex] + Flatten(BuildTree(tris), nodeIndex, |old(orderedTriangles)|)
      ensures orderedTriangles == old(orderedTriangles) + Ordered(BuildTree(tris))
      decreases |tris|, 0
    {
      hide *;
      ghost var prefix, box, first := nodes[..nodeIndex], Bounds(tris), |orderedTriangles|;
      var left, right := Halves(tris, nodes[nodeIndex].box);
      BuildInner(tris);
      ghost var lt, rt := BuildTree(left), BuildTree(right);
      FlattenInner(box, lt, rt, nodeIndex, first);
      OrderedInner(box, lt, rt);
      LinkLeft(left, nodeIndex);
      var _ := BuildNode(right);
      PatchRight(nodes, prefix, box, Flatten(lt, nodeIndex + 1, first),
                 Flatten(rt, nodeIndex + 1 + Size(lt), first + Count(lt)));
      nodes := nodes[nodeIndex := nodes[nodeIndex].(rightOrCount := 0)];
    }

    // node.leftOrFirst = buildNode(left)
    method LinkLeft(left: seq<Tri>, nodeIndex: nat)
      requires |nodes| == nodeIndex + 1 && nodes[nodeIndex] == Record(nodes[nodeIndex].box, 0, 0)
      modifies this
      ensures nodes == old(nodes)[..nodeIndex] + [Record(old(nodes[nodeIndex].box), nodeIndex + 1, 0)]
                       + Flatten(BuildTree(left), nodeIndex + 1, |old(orderedTriangles)|)
      ensures orderedTriangles == old(orderedTriangles) + Ordered(BuildTree(left))
      decreases |left|, 2
    {
      hide *;
      ghost var prefix, box := nodes[..nodeIndex], nodes[nodeIndex].box;
      assert nodes == prefix + [Record(box, 0, 0)];
      var child := BuildNode(left);
      PatchLeft(nodes, prefix, box, Flatten(BuildTree(left), nodeIndex + 1, |old(orderedTriangles)|), child);
      nodes := nodes[nodeIndex := nodes[nodeIndex].(leftOrFirst := child)];
    }
  }

  // ------------------------------------------------------------------ packing

  const TWO32 := 0x1_0000_0000

  // One 32-bit slot of the node buffer: a float, or the unsigned word a DataView put there.
  datatype Word = F(e: Ext) | U(n: nat)

  function PackRecord(r: Record): (w: seq<Word>)
    ensures |w| == 8
  {
    [F(r.box.lo.x), F(r.box.lo.y), F(r.box.lo.z), U(r.leftOrFirst % TWO32),
     F(r.box.hi.x), F(r.box.hi.y), F(r.box.hi.z), U(r.rightOrCount % TWO32)]
  }

  function PackFace(f: Face): (w: seq<real>)
    ensures |w| == 12
  {
    [f.v0.x, f.v0.y, f.v0.z, 0.0, f.v1.x, f.v1.y, f.v1.z, 0.0, f.v2.x, f.v2.y, f.v2.z, 0.0]
  }

  // Where the shader's struct layout has the fields: each vector at a multiple of four words.
  lemma RecordWords(r: Record, m: Axis)
    ensures PackRecord(r)[m] == F(r.box.lo.At(m)) && PackRecord(r)[4 + m] == F(r.box.hi.At(m))
    ensures PackRecord(r)[3] == U(r.leftOrFirst % TWO32) && PackRecord(r)[7] == U(r.rightOrCount % TWO32)
  {
  }

  lemma FaceWords(f: Face, k: Axis, m: Axis)
    ensures PackFace(f)[4 * k + m] == f.Corner(k).At(m) && PackFace(f)[4 * k + 3] == 0.0
  {
    assert k == 0 || k == 1 || k == 2;
  }

  predicate WellTyped(words: seq<Word>, i: nat)
    requires 8 * i + 8 <= |words|
  {
    var o := 8 * i;
    && words[o].F? && words[o + 1].F? && words[o + 2].F? && words[o + 3].U?
    && words[o + 4].F? && words[o + 5].F? && words[o + 6].F? && words[o + 7].U?
  }

  // The shader's view of record i: vec3, u32, vec3, u32.
  function ReadRecord(words: seq<Word>, i: nat): Record
    requires 8 * i + 8 <= |words| && WellTyped(words, i)
  {
    var o := 8 * i;
    Record(Box(Ext3(words[o].e, words[o + 1].e, words[o + 2].e),
               Ext3(words[o + 4].e, words[o + 5].e, words[o + 6].e)),
           words[o + 3].n, words[o + 7].n)
  }

  function ReadFace(words: seq<real>, i: nat): Face
    requires 12 * i + 12 <= |words|
  {
    var o := 12 * i;
    Face(Vec3(words[o], words[o + 1], words[o + 2]),
         Vec3(words[o + 4], words[o + 5], words[o + 6]),
         Vec3(words[o + 8], words[o + 9], words[o + 10]))
  }

  // Reading back undoes packing, as long as the indices fit in 32 bits.
  lemma RecordRoundTrip(words: seq<Word>, i: nat, r: Record)
    requires 8 * i + 8 <= |words| && words[8 * i..8 * i + 8] == PackRecord(r)
    ensures WellTyped(words, i)
    ensures ReadRecord(words, i) == r <==> r.leftOrFirst < TWO32 && r.rightOrCount < TWO32
  {
    var o, w := 8 * i, words[8 * i..8 * i + 8];
    assert forall k :: 0 <= k < 8 ==> words[o + k] == w[k];
    assert words[o + 0] == w[0] && words[o + 1] == w[1] && words[o + 2] == w[2] && words[o + 3] == w[3];
    assert words[o + 4] == w[4] && words[o + 5] == w[5] && words[o + 6] == w[6] && words[o + 7] == w[7];
  }

  lemma FaceRoundTrip(words: seq<real>, i: nat, f: Face)
    requires 12 * i + 12 <= |words| && words[12 * i..12 * i + 12] == PackFace(f)
    ensures ReadFace(words, i) == f
  {
    var o, w := 12 * i, words[12 * i..12 * i + 12];
    assert words[o + 0] == w[0] && words[o + 1] == w[1] && words[o + 2] == w[2];
    assert words[o + 4] == w[4] && words[o + 5] == w[5] && words[o + 6] == w[6];
    assert words[o + 8] == w[8] && words[o + 9] == w[9] && words[o + 10] == w[10];
  }

  lemma SameSlice<T>(a: seq<T>, b: seq<T>, n: nat, lo: nat, hi: nat)
    requires lo <= hi <= n <= |a| && n <= |b| && a[..n] == b[..n]
    ensures a[lo..hi] == b[lo..hi]
  {
    forall k | 0 <= k < hi - lo
      ensures a[lo..hi][k] == b[lo..hi][k]
    {
      assert a[..n][lo + k] == b[..n][lo + k];
    }
  }

  method PutRecord(packed: array<Word>, o: nat, n: Record)
    requires o + 8 <= packed.Length
    modifies packed
    ensures packed[..o] == old(packed[..o]) && packed[o..o + 8] == PackRecord(n)
  {
    packed[o] := F(n.box.lo.x);
    packed[o + 1] := F(n.box.lo.y);
    packed[o + 2] := F(n.box.lo.z);
    packed[o + 3] := U(n.leftOrFirst % TWO32);
    packed[o + 4] := F(n.box.hi.x);
    packed[o + 5] := F(n.box.hi.y);
    packed[o + 6] := F(n.box.hi.z);
    packed[o + 7] := U(n.rightOrCount % TWO32);
  }

  method PackNodes(nodes: seq<Record>) returns (packed: array<Word>)
    ensures fresh(packed) && packed.Length == 8 * |nodes|
    ensures forall k :: 0 <= k < |nodes| ==> packed[8 * k..8 * k + 8] == PackRecord(nodes[k])
  {
    hide *;
    packed := new Word[|nodes| * 8](_ => F(Fin(0.0)));
    for i := 0 to |nodes|
      invariant forall k :: 0 <= k < i ==> packed[8 * k..8 * k + 8] == PackRecord(nodes[k])
    {
      ghost var before := packed[..];
      PutRecord(packed, i * 8, nodes[i]);
      forall k | 0 <= k < i
        ensures packed[8 * k..8 * k + 8] == PackRecord(nodes[k])
      {
        SameSlice(before, packed[..], 8 * i, 8 * k, 8 * k + 8);
      }
    }
  }

  method PutFace(packed: array<real>, o: nat, t: Tri)
    requires o + 12 <= packed.Length
    modifies packed
    ensures packed[..o] == old(packed[..o]) && packed[o..o + 12] == PackFace(t.Face())
  {
    packed[o], packed[o + 1], packed[o + 2], packed[o + 3] := t.v0.x, t.v0.y, t.v0.z, 0.0;
    packed[o + 4], packed[o + 5], packed[o + 6], packed[o + 7] := t.v1.x, t.v1.y, t.v1.z, 0.0;
    packed[o + 8], packed[o + 9], packed[o + 10], packed[o + 11] := t.v2.x, t.v2.y, t.v2.z, 0.0;
  }

  method PackTriangles(tris: seq<Tri>) returns (packed: array<real>)
    ensures fresh(packed) && packed.Length == 12 * |tris|
    ensures forall k :: 0 <= k < |tris| ==> packed[12 * k..12 * k + 12] == PackFace(tris[k].Face())
  {
    hide *;
    packed := new real[|tris| * 12](_ => 0.0);
    for i := 0 to |tris|
      invariant forall k :: 0 <= k < i ==> packed[12 * k..12 * k + 12] == PackFace(tris[k].Face())
    {
      ghost var before := packed[..];
      PutFace(packed, i * 12, tris[i]);
      forall k | 0 <= k < i
        ensures packed[12 * k..12 * k + 12] == PackFace(tris[k].Face())
      {
        SameSlice(before, packed[..], 12 * i, 12 * k, 12 * k + 12);
      }
    }
  }

  // What a reader of the two buffers gets back.
  ghost predicate Reads(words: seq<Word>, faces: seq<real>, nodes: seq<Record>, ordered: seq<Tri>) {
    && |words| == 8 * |nodes| && |faces| == 12 * |ordered|
    && (forall i :: 0 <= i < |nodes| ==> WellTyped(words, i) && ReadRecord(words, i) == nodes[i])
    && (forall i :: 0 <= i < |ordered| ==> ReadFace(faces, i) == ordered[i].Face())
  }

  // The shader's arrays, decoded from the buffers.
  function DecodeNodes(words: seq<Word>, n: nat): (r: seq<Record>)
    requires 8 * n <= |words| && forall i :: 0 <= i < n ==> WellTyped(words, i)
    ensures |r| == n
  {
    seq(n, i requires 0 <= i < n => ReadRecord(words, i))
  }

  function DecodeFaces(words: seq<real>, n: nat): (r: seq<Face>)
    requires 12 * n <= |words|
    ensures |r| == n
  {
    seq(n, i requires 0 <= i < n => ReadFace(words, i))
  }

  lemma {:induction false} FieldsFit(t: Tree, at: nat, first: nat, i: nat)
    requires i < Size(t)
    ensures var r := Flatten(t, at, first)[i];
            (r.leftOrFirst < at + Size(t) || r.leftOrFirst <= first + Count(t)) && r.rightOrCount <= Count(t)
    decreases t
  {
    if t.Inner? && i > 0 {
      if i - 1 < Size(t.left) {
        FieldsFit(t.left, at + 1, first, i - 1);
      } else {
        FieldsFit(t.right, at + 1 + Size(t.left), first + Count(t.left), i - 1 - Size(t.left));
      }
    }
  }

  lemma ReadsBack(words: seq<Word>, faces: seq<real>, t: Tree)
    requires |words| == 8 * Size(t) && |faces| == 12 * Count(t) && Size(t) < TWO32 && Count(t) < TWO32
    requires forall k :: 0 <= k < Size(t) ==> words[8 * k..8 * k + 8] == PackRecord(Flatten(t, 0, 0)[k])
    requires forall k :: 0 <= k < Count(t) ==> faces[12 * k..12 * k + 12] == PackFace(Ordered(t)[k].Face())
    ensures Reads(words, faces, Flatten(t, 0, 0), Ordered(t))
  {
    forall i | 0 <= i < Size(t)
      ensures WellTyped(words, i) && ReadRecord(words, i) == Flatten(t, 0, 0)[i]
    {
      FieldsFit(t, 0, 0, i);
      RecordRoundTrip(words, i, Flatten(t, 0, 0)[i]);
    }
    forall i | 0 <= i < Count(t)
      ensures ReadFace(faces, i) == Ordered(t)[i].Face()
    {
      FaceRoundTrip(faces, i, Ordered(t)[i].Face());
    }
  }

  method BuildBvh(vertices: seq<real>, indices: seq<nat>)
    returns (nodes: array<Word>, triangles: array<real>, nodeCount: nat, triangleCount: nat)
    requires IndicesInRange(vertices, indices)
    ensures triangleCount == |indices| / 3
    ensures nodeCount == 2 * Leaves(BuildTree(Scene(vertices, indices))) - 1
    ensures nodeCount < TWO32 && triangleCount < TWO32 ==>
              var t := BuildTree(Scene(vertices, indices));
              Reads(nodes[..], triangles[..], Flatten(t, 0, 0), Ordered(t))
  {
    var tris := LoadTriangles(vertices, indices);
    var b := new Builder();
    var _ := b.BuildNode(tris);
    ghost var t := BuildTree(tris);
    BuildPermutes(tris);
    SizeIsTwiceLeavesMinusOne(t);
    assert b.nodes == Flatten(t, 0, 0) && b.orderedTriangles == Ordered(t);
    nodes := PackNodes(b.nodes);
    triangles := PackTriangles(b.orderedTriangles);
    nodeCount, triangleCount := |b.nodes|, |b.orderedTriangles|;
    if nodeCount < TWO32 && triangleCount < TWO32 {
      ReadsBack(nodes[..], triangles[..], t);
    }
  }
}
