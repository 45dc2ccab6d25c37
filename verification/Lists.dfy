// indexOf and splice on lists whose elements are distinct.
module Lists {
  function IndexOf<T(==)>(xs: seq<T>, x: T): (i: int)
    ensures -1 <= i < |xs|
    ensures i == -1 <==> x !in xs
    ensures i >= 0 ==> xs[i] == x
  {
    if xs == [] then -1
    else if xs[0] == x then 0
    else var i := IndexOf(xs[1..], x); if i == -1 then -1 else i + 1
  }

  ghost predicate Distinct<T>(xs: seq<T>) {
    forall i, j :: 0 <= i < j < |xs| ==> xs[i] != xs[j]
  }

  lemma IndexOfDistinct<T>(xs: seq<T>, i: nat)
    requires Distinct(xs) && i < |xs|
    ensures IndexOf(xs, xs[i]) == i
  {
    assert xs[IndexOf(xs, xs[i])] == xs[i];
  }

  // xs without the element at index i.
  function Splice<T>(xs: seq<T>, i: nat): seq<T>
    requires i < |xs|
  {
    xs[..i] + xs[i + 1..]
  }

  // What removing x from a list leaves.
  function Without<T(==)>(xs: seq<T>, x: T): seq<T> {
    if x in xs then Splice(xs, IndexOf(xs, x)) else xs
  }

  // Nothing else goes and nothing changes places: putting x back gives the list again.
  lemma WithoutInPlace<T>(xs: seq<T>, x: T) returns (i: nat)
    requires x in xs
    ensures var w := Without(xs, x); i <= |w| && xs == w[..i] + [x] + w[i..]
  {
    i := IndexOf(xs, x);
    var w := Without(xs, x);
    assert w[..i] == xs[..i] && w[i..] == xs[i + 1..];
  }

  // x comes before y.
  ghost predicate Earlier<T>(xs: seq<T>, x: T, y: T) {
    exists i, j :: 0 <= i < j < |xs| && xs[i] == x && xs[j] == y
  }

  // xs lies in ys in one piece, from k on.
  predicate PartAt<T(==)>(xs: seq<T>, ys: seq<T>, k: nat) {
    k + |xs| <= |ys| && ys[k..k + |xs|] == xs
  }

  ghost predicate Part<T>(xs: seq<T>, ys: seq<T>) {
    exists k: nat :: PartAt(xs, ys, k)
  }

  lemma PartOfPart<T>(xs: seq<T>, ys: seq<T>, zs: seq<T>)
    requires Part(xs, ys) && Part(ys, zs)
    ensures Part(xs, zs)
  {
    var a: nat :| PartAt(xs, ys, a);
    var b: nat :| PartAt(ys, zs, b);
    forall i | 0 <= i < |xs|
      ensures zs[b + a + i] == xs[i]
    {
      assert zs[b..b + |ys|][a + i] == ys[a + i] && ys[a..a + |xs|][i] == xs[i];
    }
    assert PartAt(xs, zs, b + a);
  }

  lemma EarlierInPart<T>(xs: seq<T>, ys: seq<T>, x: T, y: T)
    requires Part(xs, ys) && Earlier(xs, x, y)
    ensures Earlier(ys, x, y)
  {
    var a: nat :| PartAt(xs, ys, a);
    var i, j :| 0 <= i < j < |xs| && xs[i] == x && xs[j] == y;
    assert ys[a + i] == ys[a..a + |xs|][i] && ys[a + j] == ys[a..a + |xs|][j];
  }

  lemma MemberOfPart<T>(xs: seq<T>, ys: seq<T>, x: T)
    requires Part(xs, ys) && x in xs
    ensures x in ys
  {
    var a: nat :| PartAt(xs, ys, a);
  }

  lemma PartsOfJoin<T>(xs: seq<T>, ys: seq<T>)
    ensures Part(xs, xs + ys) && Part(ys, xs + ys)
  {
    assert PartAt(xs, xs + ys, 0) && PartAt(ys, xs + ys, |xs|);
  }

  lemma EarlierAcross<T>(xs: seq<T>, ys: seq<T>, x: T, y: T)
    requires x in xs && y in ys
    ensures Earlier(xs + ys, x, y)
  {
    var i :| 0 <= i < |xs| && xs[i] == x;
    var j :| 0 <= j < |ys| && ys[j] == y;
    assert (xs + ys)[i] == x && (xs + ys)[|xs| + j] == y;
  }

  lemma WithoutMember<T>(xs: seq<T>, x: T, y: T)
    requires Distinct(xs)
    ensures y in Without(xs, x) <==> y in xs && y != x
  {
    if x in xs {
      var i := IndexOf(xs, x);
      var w := Splice(xs, i);
      if y in w {
        var k :| 0 <= k < |w| && w[k] == y;
        assert w[k] == if k < i then xs[k] else xs[k + 1];
      }
      if y in xs && y != x {
        var j :| 0 <= j < |xs| && xs[j] == y;
        assert w[if j < i then j else j - 1] == y;
      }
    }
  }

  lemma WithoutDistinct<T>(xs: seq<T>, x: T)
    requires Distinct(xs)
    ensures Distinct(Without(xs, x))
  {
    if x in xs {
      var i := IndexOf(xs, x);
      var w := Splice(xs, i);
      assert forall k :: 0 <= k < |w| ==> w[k] == xs[if k < i then k else k + 1];
    }
  }

  lemma AppendSpec<T>(xs: seq<T>, x: T)
    requires Distinct(xs) && x !in xs
    ensures Distinct(xs + [x])
    ensures forall y :: y in xs + [x] <==> y in xs || y == x
  {
  }

  lemma JoinDistinct<T>(xs: seq<T>, ys: seq<T>)
    requires Distinct(xs) && Distinct(ys) && forall x :: x in xs ==> x !in ys
    ensures Distinct(xs + ys)
  {
    forall i, j | 0 <= i < j < |xs + ys|
      ensures (xs + ys)[i] != (xs + ys)[j]
    {
      if i < |xs| <= j {
        assert xs[i] in xs && ys[j - |xs|] in ys;
      }
    }
  }
}
