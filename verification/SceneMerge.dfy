// Merging the objects of a scene into one vertex array and one index array, with the
// owner of every triangle.
module SceneMerge {
  import opened Geometry
  import opened Meshes
  import opened SphereShape

  datatype Part = Part(vertices: seq<real>, indices: seq<nat>) {
    // Whole points, whole triangles, every corner a point.
    ghost predicate Shaped() {
      && |vertices| == 3 * Points(vertices) && |indices| == 3 * Triangles(indices)
      && forall i :: 0 <= i < |indices| ==> indices[i] < Points(vertices)
    }
  }

  ghost predicate AllShaped(parts: seq<Part>) {
    forall k :: 0 <= k < |parts| ==> parts[k].Shaped()
  }

  function Shifted(indices: seq<nat>, shift: nat): (s: seq<nat>)
    ensures |s| == |indices|
    ensures forall i :: 0 <= i < |s| ==> s[i] == indices[i] + shift
  {
    seq(|indices|, i requires 0 <= i < |indices| => indices[i] + shift)
  }

  ghost function AllVertices(parts: seq<Part>): seq<real> {
    if parts == [] then [] else AllVertices(parts[..|parts| - 1]) + parts[|parts| - 1].vertices
  }

  ghost function AllIndices(parts: seq<Part>): seq<nat> {
    if parts == [] then []
    else
      var before := parts[..|parts| - 1];
      AllIndices(before) + Shifted(parts[|parts| - 1].indices, Points(AllVertices(before)))
  }

  // The object each triangle came from.
  ghost function Owners(parts: seq<Part>): seq<nat> {
    if parts == [] then []
    else Owners(parts[..|parts| - 1]) + seq(Triangles(parts[|parts| - 1].indices), _ => (|parts| - 1) as nat)
  }

  lemma ShapedParts(parts: seq<Part>, n: nat)
    requires AllShaped(parts) && n < |parts|
    ensures AllShaped(parts[..n])
    ensures |parts[n].vertices| == 3 * Points(parts[n].vertices)
    ensures |parts[n].indices| == 3 * Triangles(parts[n].indices)
  {
    assert parts[n].Shaped();
  }

  lemma NothingCounts()
    ensures Points([]) == 0 && Triangles([]) == 0
  {
  }

  lemma PointsAdd(a: seq<real>, b: seq<real>)
    requires |a| == 3 * Points(a) && |b| == 3 * Points(b)
    ensures |a + b| == 3 * Points(a + b) && Points(a + b) == Points(a) + Points(b)
  {
  }

  lemma TrianglesAdd(a: seq<nat>, b: seq<nat>, shift: nat)
    requires |a| == 3 * Triangles(a) && |b| == 3 * Triangles(b)
    ensures var c := a + Shifted(b, shift); |c| == 3 * Triangles(c) && Triangles(c) == Triangles(a) + Triangles(b)
  {
  }

  lemma {:induction false} Lengths(parts: seq<Part>)
    requires AllShaped(parts)
    ensures |AllVertices(parts)| == 3 * Points(AllVertices(parts))
    ensures |AllIndices(parts)| == 3 * Triangles(AllIndices(parts)) == 3 * |Owners(parts)|
  {
    hide AllShaped, Part.Shaped, Triangles, Points;
    if parts == [] {
      NothingCounts();
    } else {
      var n := |parts| - 1;
      ShapedParts(parts, n);
      Lengths(parts[..n]);
      PointsAdd(AllVertices(parts[..n]), parts[n].vertices);
      TrianglesAdd(AllIndices(parts[..n]), parts[n].indices, Points(AllVertices(parts[..n])));
    }
  }

  // The arrays of the first k objects are the front of the arrays of all of them.
  lemma {:induction false} Fronts(parts: seq<Part>, k: nat)
    requires k <= |parts|
    ensures |AllVertices(parts[..k])| <= |AllVertices(parts)|
    ensures AllVertices(parts)[..|AllVertices(parts[..k])|] == AllVertices(parts[..k])
    ensures |AllIndices(parts[..k])| <= |AllIndices(parts)|
    ensures AllIndices(parts)[..|AllIndices(parts[..k])|] == AllIndices(parts[..k])
    ensures |Owners(parts[..k])| <= |Owners(parts)|
    ensures Owners(parts)[..|Owners(parts[..k])|] == Owners(parts[..k])
  {
    if k == |parts| {
      assert parts[..k] == parts;
    } else {
      var before := parts[..|parts| - 1];
      Fronts(before, k);
      assert before[..k] == parts[..k];
    }
  }

  // ---------------------------------------------------------------------- the method

  lemma NothingMerged(parts: seq<Part>)
    ensures AllVertices(parts[..0]) == [] && AllIndices(parts[..0]) == [] && Owners(parts[..0]) == []
  {
  }

  lemma OneMore(parts: seq<Part>, k: nat)
    requires k < |parts|
    ensures AllVertices(parts[..k + 1]) == AllVertices(parts[..k]) + parts[k].vertices
    ensures AllIndices(parts[..k + 1])
         == AllIndices(parts[..k]) + Shifted(parts[k].indices, Points(AllVertices(parts[..k])))
    ensures Owners(parts[..k + 1]) == Owners(parts[..k]) + seq(Triangles(parts[k].indices), _ => k)
    ensures AllShaped(parts) ==>
              Points(AllVertices(parts[..k + 1])) == Points(AllVertices(parts[..k])) + |parts[k].vertices| / 3
  {
    assert parts[..k + 1][..k] == parts[..k];
    if AllShaped(parts) {
      assert parts[k].Shaped();
      Lengths(parts[..k]);
    }
  }

  method Totals(parts: seq<Part>) returns (totalVertices: nat, totalIndices: nat)
    ensures totalVertices == |AllVertices(parts)| && totalIndices == |AllIndices(parts)|
  {
    hide AllVertices, AllIndices;
    totalVertices, totalIndices := 0, 0;
    NothingMerged(parts);
    for k := 0 to |parts|
      invariant totalVertices == |AllVertices(parts[..k])| && totalIndices == |AllIndices(parts[..k])|
    {
      OneMore(parts, k);
      totalVertices := totalVertices + |parts[k].vertices|;
      totalIndices := totalIndices + |parts[k].indices|;
    }
    assert parts[..|parts|] == parts;
  }

  // TypedArray.set
  method SetAt(a: array<real>, offset: nat, source: seq<real>)
    requires offset + |source| <= a.Length
    modifies a
    ensures a[..offset] == old(a[..offset]) && a[offset..offset + |source|] == source
  {
    forall i | 0 <= i < |source| {
      a[offset + i] := source[i];
    }
  }

  method SetShifted(a: array<nat>, offset: nat, source: seq<nat>, shift: nat)
    requires offset + |source| <= a.Length
    modifies a
    ensures a[..offset] == old(a[..offset]) && a[offset..offset + |source|] == Shifted(source, shift)
  {
    for i := 0 to |source|
      invariant a[..offset] == old(a[..offset])
      invariant forall j :: 0 <= j < i ==> a[offset + j] == source[j] + shift
    {
      a[offset + i] := source[i] + shift;
    }
  }

  method PushOwner(materials: seq<nat>, owner: nat, n: nat) returns (longer: seq<nat>)
    ensures longer == materials + seq(n, _ => owner)
  {
    longer := materials;
    for i := 0 to n
      invariant longer == materials + seq(i, _ => owner)
    {
      longer := longer + [owner];
    }
  }

  method Merge(parts: seq<Part>) returns (vertices: array<real>, indices: array<nat>, materials: seq<nat>)
    requires AllShaped(parts)
    ensures vertices[..] == AllVertices(parts)
    ensures indices[..] == AllIndices(parts)
    ensures materials == Owners(parts)
  {
    hide AllVertices, AllIndices, Owners, Shifted, Part.Shaped;
    var totalVertices, totalIndices := Totals(parts);
    vertices := new real[totalVertices];
    indices := new nat[totalIndices];
    materials := [];
    var vertexOffset, indexOffset, vertexCount := 0, 0, 0;
    NothingMerged(parts);
    for k := 0 to |parts|
      invariant vertexOffset == |AllVertices(parts[..k])| <= vertices.Length
      invariant vertices[..vertexOffset] == AllVertices(parts[..k])
      invariant indexOffset == |AllIndices(parts[..k])| <= indices.Length
      invariant indices[..indexOffset] == AllIndices(parts[..k])
      invariant vertexCount == Points(AllVertices(parts[..k])) && materials == Owners(parts[..k])
    {
      var part := parts[k];
      OneMore(parts, k);
      Fronts(parts, k + 1);
      SetAt(vertices, vertexOffset, part.vertices);
      SetShifted(indices, indexOffset, part.indices, vertexCount);
      materials := PushOwner(materials, k, |part.indices| / 3);
      vertexOffset := vertexOffset + |part.vertices|;
      indexOffset := indexOffset + |part.indices|;
      vertexCount := vertexCount + |part.vertices| / 3;
    }
    assert parts[..|parts|] == parts;
  }

  // ------------------------------------------------------------------ what is preserved

  ghost predicate SamePoint(a: seq<real>, i: nat, b: seq<real>, j: nat) {
    i < Points(a) && j < Points(b) && PointOf(a, i) == PointOf(b, j)
  }

  // Triangle t of object k, and where merging puts it.
  ghost predicate CameFrom(parts: seq<Part>, T: nat, k: nat, t: nat)
    requires AllShaped(parts)
  {
    && k < |parts| && t < Triangles(parts[k].indices) && T == Triangles(AllIndices(parts[..k])) + t
    && T < |Owners(parts)| && Owners(parts)[T] == k
    && T < Triangles(AllIndices(parts))
    && forall c: Slot :: SamePoint(AllVertices(parts), Org(AllIndices(parts), T, c),
                                   parts[k].vertices, Org(parts[k].indices, t, c))
  }

  lemma LastCameFrom(parts: seq<Part>, t: nat)
    requires AllShaped(parts) && |parts| > 0 && t < Triangles(parts[|parts| - 1].indices)
    ensures CameFrom(parts, Triangles(AllIndices(parts[..|parts| - 1])) + t, |parts| - 1, t)
  {
    var n := |parts| - 1;
    Lengths(parts[..n]);
    Lengths(parts);
    assert parts[n].Shaped();
  }

  lemma CameFromLonger(parts: seq<Part>, T: nat, k: nat, t: nat)
    requires AllShaped(parts) && |parts| > 0 && CameFrom(parts[..|parts| - 1], T, k, t)
    ensures CameFrom(parts, T, k, t)
  {
    var before := parts[..|parts| - 1];
    Lengths(before);
    Lengths(parts);
    assert before[..k] == parts[..k];
  }

  lemma TrianglesBefore(parts: seq<Part>)
    requires AllShaped(parts) && Triangles(AllIndices(parts)) > 0
    ensures |parts| > 0 && AllShaped(parts[..|parts| - 1])
    ensures Triangles(AllIndices(parts))
         == Triangles(AllIndices(parts[..|parts| - 1])) + Triangles(parts[|parts| - 1].indices)
  {
    var before := parts[..|parts| - 1];
    Lengths(before);
    Lengths(parts);
    assert parts[|parts| - 1].Shaped();
  }

  // Every merged triangle is a triangle of the object recorded for it, corner by corner.
  lemma {:induction false} MergedTriangle(parts: seq<Part>, T: nat) returns (k: nat, t: nat)
    requires AllShaped(parts) && T < Triangles(AllIndices(parts))
    ensures CameFrom(parts, T, k, t)
  {
    hide AllIndices, AllVertices, Owners, CameFrom, Triangles;
    TrianglesBefore(parts);
    var n := |parts| - 1;
    var before := parts[..n];
    if T < Triangles(AllIndices(before)) {
      k, t := MergedTriangle(before, T);
      CameFromLonger(parts, T, k, t);
    } else {
      k, t := n, T - Triangles(AllIndices(before));
      LastCameFrom(parts, t);
    }
  }

  // And every triangle of every object is merged, at one place.
  lemma {:induction false} TriangleMerged(parts: seq<Part>, k: nat, t: nat)
    requires AllShaped(parts) && k < |parts| && t < Triangles(parts[k].indices)
    ensures CameFrom(parts, Triangles(AllIndices(parts[..k])) + t, k, t)
  {
    hide AllIndices, AllVertices, Owners, CameFrom, Triangles;
    if k == |parts| - 1 {
      LastCameFrom(parts, t);
    } else {
      TriangleMerged(parts[..|parts| - 1], k, t);
      assert parts[..|parts| - 1][..k] == parts[..k];
      CameFromLonger(parts, Triangles(AllIndices(parts[..k])) + t, k, t);
    }
  }

  // ------------------------------------------------------------ manifolds side by side

  lemma NothingIsManifold()
    ensures Manifold(0, [])
  {
  }

  lemma Count(v: nat, a: seq<nat>, w: nat, b: seq<nat>)
    requires Proper(v, a) && Proper(w, b)
    ensures |a| == 3 * Triangles(a) && |b| == 3 * Triangles(b)
    ensures var c := a + Shifted(b, v); |c| == 3 * Triangles(c) && Triangles(c) == Triangles(a) + Triangles(b)
  {
    TrianglesAdd(a, b, v);
  }

  lemma CornerBeside(v: nat, a: seq<nat>, w: nat, b: seq<nat>, t: nat, k: Slot)
    requires Proper(v, a) && Proper(w, b) && t < Triangles(a + Shifted(b, v))
    ensures var c, n := a + Shifted(b, v), Triangles(a);
            if t < n then Org(c, t, k) == Org(a, t, k) < v
            else t - n < Triangles(b) && Org(c, t, k) == Org(b, t - n, k) + v
  {
    hide Triangles;
    Count(v, a, w, b);
  }

  // An edge of the pair is an edge of one of the two; v tells which.
  lemma EdgeBeside(v: nat, a: seq<nat>, w: nat, b: seq<nat>, t: nat, k: Slot)
    requires Proper(v, a) && Proper(w, b) && t < Triangles(a + Shifted(b, v))
    ensures var c, n := a + Shifted(b, v), Triangles(a);
            if t < n then Org(c, t, k) == Org(a, t, k) < v && Dst(c, t, k) == Dst(a, t, k) < v
            else t - n < Triangles(b) && Org(c, t, k) == Org(b, t - n, k) + v && Dst(c, t, k) == Dst(b, t - n, k) + v
  {
    hide Triangles, Org, Shifted;
    CornerBeside(v, a, w, b, t, k);
    CornerBeside(v, a, w, b, t, Succ(k));
  }

  lemma ProperBeside(v: nat, a: seq<nat>, w: nat, b: seq<nat>)
    requires Proper(v, a) && Proper(w, b)
    ensures Proper(v + w, a + Shifted(b, v))
  {
    hide Triangles, Org, Dst;
    var c, n := a + Shifted(b, v), Triangles(a);
    Count(v, a, w, b);
    forall t, k: Slot {:trigger Org(c, t, k)} | 0 <= t < Triangles(c)
      ensures Org(c, t, k) < v + w && Org(c, t, k) != Dst(c, t, k)
    {
      EdgeBeside(v, a, w, b, t, k);
      if t < n { assert Org(a, t, k) != Dst(a, t, k); } else { assert Org(b, t - n, k) < w; }
    }
  }

  lemma OrientedBeside(v: nat, a: seq<nat>, w: nat, b: seq<nat>)
    requires Proper(v, a) && Proper(w, b) && Oriented(a) && Oriented(b)
    ensures Oriented(a + Shifted(b, v))
  {
    hide Triangles, Org, Dst, Proper;
    var c, n := a + Shifted(b, v), Triangles(a);
    forall t, k: Slot, u, l: Slot {:trigger SameEdge(c, t, k, u, l)}
      | 0 <= t < Triangles(c) && 0 <= u < Triangles(c) && SameEdge(c, t, k, u, l)
      ensures t == u && k == l
    {
      EdgeBeside(v, a, w, b, t, k);
      EdgeBeside(v, a, w, b, u, l);
      if t < n { assert SameEdge(a, t, k, u, l); } else { assert SameEdge(b, t - n, k, u - n, l); }
    }
  }

  lemma ClosedBeside(v: nat, a: seq<nat>, w: nat, b: seq<nat>)
    requires Proper(v, a) && Proper(w, b) && Closed(a) && Closed(b)
    ensures Closed(a + Shifted(b, v))
  {
    hide Triangles, Org, Dst, Proper;
    var c, n := a + Shifted(b, v), Triangles(a);
    Count(v, a, w, b);
    forall t, k: Slot | 0 <= t < Triangles(c)
      ensures HasTwin(c, t, k)
    {
      EdgeBeside(v, a, w, b, t, k);
      if t < n {
        assert HasTwin(a, t, k);
        var u, l: Slot :| 0 <= u < n && Opposite(a, t, k, u, l);
        EdgeBeside(v, a, w, b, u, l);
        assert Opposite(c, t, k, u, l);
      } else {
        assert HasTwin(b, t - n, k);
        var u, l: Slot :| 0 <= u < Triangles(b) && Opposite(b, t - n, k, u, l);
        EdgeBeside(v, a, w, b, u + n, l);
        assert Opposite(c, t, k, u + n, l);
      }
    }
  }

  lemma SimplicialBeside(v: nat, a: seq<nat>, w: nat, b: seq<nat>)
    requires Proper(v, a) && Proper(w, b) && Simplicial(a) && Simplicial(b)
    ensures Simplicial(a + Shifted(b, v))
  {
    hide Triangles, Org, Dst, Proper;
    var c, n := a + Shifted(b, v), Triangles(a);
    forall t, k: Slot, k': Slot, u, l: Slot, l': Slot {:trigger Opposite(c, t, k, u, l), Opposite(c, t, k', u, l')}
      | 0 <= t < Triangles(c) && 0 <= u < Triangles(c) && Opposite(c, t, k, u, l) && Opposite(c, t, k', u, l')
      ensures k == k'
    {
      EdgeBeside(v, a, w, b, t, k);
      EdgeBeside(v, a, w, b, t, k');
      EdgeBeside(v, a, w, b, u, l);
      EdgeBeside(v, a, w, b, u, l');
      if t < n {
        assert Opposite(a, t, k, u, l) && Opposite(a, t, k', u, l');
      } else {
        assert Opposite(b, t - n, k, u - n, l) && Opposite(b, t - n, k', u - n, l');
      }
    }
  }

  // Turning in one of the two is turning in the pair; d triangles come before it.
  lemma {:induction false} TurnsBeside(v: nat, a: seq<nat>, w: nat, b: seq<nat>, t: nat, k: Slot, n: nat, u: nat,
                                       l: Slot)
    requires Proper(v, a) && Proper(w, b)
    ensures var c := a + Shifted(b, v);
            t < Triangles(a) && u < Triangles(a) && Turns(a, t, k, n, u, l) ==>
              t < Triangles(c) && Turns(c, t, k, n, u, l)
    ensures var c, d := a + Shifted(b, v), Triangles(a);
            t < Triangles(b) && u < Triangles(b) && Turns(b, t, k, n, u, l) ==>
              t + d < Triangles(c) && Turns(c, t + d, k, n, u + d, l)
    decreases n
  {
    hide Triangles, Org, Dst, Proper;
    var c, d := a + Shifted(b, v), Triangles(a);
    Count(v, a, w, b);
    if n > 0 {
      if t < Triangles(a) && u < Triangles(a) && Turns(a, t, k, n, u, l) {
        var t', k': Slot :| 0 <= t' < Triangles(a) && Opposite(a, t, k, t', k') && Turns(a, t', Succ(k'), n - 1, u, l);
        EdgeBeside(v, a, w, b, t, k);
        EdgeBeside(v, a, w, b, t', k');
        TurnsBeside(v, a, w, b, t', Succ(k'), n - 1, u, l);
        assert Opposite(c, t, k, t', k');
      }
      if t < Triangles(b) && u < Triangles(b) && Turns(b, t, k, n, u, l) {
        var t', k': Slot :| 0 <= t' < Triangles(b) && Opposite(b, t, k, t', k') && Turns(b, t', Succ(k'), n - 1, u, l);
        EdgeBeside(v, a, w, b, t + d, k);
        EdgeBeside(v, a, w, b, t' + d, k');
        TurnsBeside(v, a, w, b, t', Succ(k'), n - 1, u, l);
        assert Opposite(c, t + d, k, t' + d, k');
      }
    }
  }

  lemma OneFanBeside(v: nat, a: seq<nat>, w: nat, b: seq<nat>)
    requires Proper(v, a) && Proper(w, b) && OneFan(a) && OneFan(b)
    ensures OneFan(a + Shifted(b, v))
  {
    hide Triangles, Org, Dst, Proper, Turns;
    var c, d := a + Shifted(b, v), Triangles(a);
    forall t, k: Slot, u, l: Slot {:trigger Org(c, t, k), Org(c, u, l)}
      | 0 <= t < Triangles(c) && 0 <= u < Triangles(c) && Org(c, t, k) == Org(c, u, l)
      ensures SameFan(c, t, k, u, l)
    {
      EdgeBeside(v, a, w, b, t, k);
      EdgeBeside(v, a, w, b, u, l);
      if t < d {
        assert SameFan(a, t, k, u, l);
        var n: nat :| Turns(a, t, k, n, u, l);
        TurnsBeside(v, a, w, b, t, k, n, u, l);
      } else {
        assert SameFan(b, t - d, k, u - d, l);
        var n: nat :| Turns(b, t - d, k, n, u - d, l);
        TurnsBeside(v, a, w, b, t - d, k, n, u - d, l);
      }
    }
  }

  lemma SideBySide(v: nat, a: seq<nat>, w: nat, b: seq<nat>)
    requires Manifold(v, a) && Manifold(w, b)
    ensures Manifold(v + w, a + Shifted(b, v))
  {
    hide Proper, Oriented, Closed, Simplicial, OneFan;
    OneFanBeside(v, a, w, b);
    ProperBeside(v, a, w, b);
    OrientedBeside(v, a, w, b);
    ClosedBeside(v, a, w, b);
    SimplicialBeside(v, a, w, b);
  }

  lemma {:induction false} MergeKeepsManifolds(parts: seq<Part>)
    requires AllShaped(parts)
    requires forall k :: 0 <= k < |parts| ==> Manifold(Points(parts[k].vertices), parts[k].indices)
    ensures Manifold(Points(AllVertices(parts)), AllIndices(parts))
  {
    hide Manifold;
    if parts == [] {
      NothingIsManifold();
    } else {
      var n := |parts| - 1;
      MergeKeepsManifolds(parts[..n]);
      Lengths(parts[..n]);
      assert parts[n].Shaped();
      SideBySide(Points(AllVertices(parts[..n])), AllIndices(parts[..n]), Points(parts[n].vertices), parts[n].indices);
    }
  }
}
