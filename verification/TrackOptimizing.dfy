// When dropping keys leaves the curve as it was.
module TrackOptimizing {
  import opened Interpolation
  import opened Curves
  import opened Tracks

  // --------------------------------------------------------------- which keys are kept

  ghost predicate Increasing(idx: seq<nat>) {
    forall p, q :: 0 <= p < q < |idx| ==> idx[p] < idx[q]
  }

  lemma {:induction false} KeptBelowShape(c: Keys, smooth: bool, i: nat)
    requires c.Shaped() && 0 < i && (i == 1 || i < |c.times|)
    ensures var idx := KeptBelow(c, smooth, i);
            && Increasing(idx) && idx[0] == 0
            && forall m :: 0 < m < i ==> (m in idx <==> Keep(c, smooth, m))
  {
    hide Keep;
    if i > 1 {
      KeptBelowShape(c, smooth, i - 1);
    }
  }

  // The first and the last key are kept, and of the inner ones those that Keep says.
  lemma KeptKeysShape(c: Keys, smooth: bool)
    requires c.Shaped()
    ensures var idx, last := KeptKeys(c, smooth), |c.times| - 1;
            && Increasing(idx) && idx[0] == 0 && idx[|idx| - 1] == last
            && forall m :: 0 < m < last ==> (m in idx <==> Keep(c, smooth, m))
  {
    hide Keep, KeptBelow;
    if |c.times| > 1 {
      KeptBelowShape(c, smooth, |c.times| - 1);
      var below := KeptBelow(c, smooth, |c.times| - 1);
      forall m | 0 < m < |c.times| - 1
        ensures m in KeptKeys(c, smooth) <==> m in below
      {
      }
    }
  }

  // Key i has a number that differs from that of a neighbouring key.
  ghost predicate Stands(c: Keys, i: nat)
    requires c.Shaped() && 0 < i < |c.times| - 1
  {
    exists j :: 0 <= j < c.stride && (c.Sample(i, j) != c.Sample(i - 1, j) || c.Sample(i, j) != c.Sample(i + 1, j))
  }

  lemma RowLength(c: Keys, a: nat)
    requires c.Shaped() && a < |c.times|
    ensures |Row(c.values, a, |c.times|, c.stride)| == c.stride
  {
  }

  lemma SameSampleIs(c: Keys, a: nat, b: nat)
    requires c.Shaped() && a < |c.times| && b < |c.times|
    ensures SameSample(c, a, b) <==> forall j :: 0 <= j < c.stride ==> c.Sample(a, j) == c.Sample(b, j)
  {
    hide Row, Keys.Sample;
    forall j | 0 <= j < c.stride
      ensures Row(c.values, a, |c.times|, c.stride)[j] == c.Sample(a, j)
      ensures Row(c.values, b, |c.times|, c.stride)[j] == c.Sample(b, j)
    {
      RowIsSample(c, a, j);
      RowIsSample(c, b, j);
    }
    RowLength(c, a);
    RowLength(c, b);
  }

  // The rule on the track's own numbers: an inner key is kept exactly if no later key shares
  // its time, it is not a second key at the first time, and, unless the track is smooth, it
  // stands out.
  lemma KeptIffNeeded(c: Keys, smooth: bool, i: nat)
    requires c.Shaped() && 0 < i < |c.times| - 1
    ensures i in KeptKeys(c, smooth) <==>
            && c.times[i] != c.times[i + 1] && (i == 1 ==> c.times[1] != c.times[0]) && (smooth || Stands(c, i))
  {
    hide KeptKeys, SameSample, Keys.Sample, Row;
    KeptKeysShape(c, smooth);
    SameSampleIs(c, i, i - 1);
    SameSampleIs(c, i, i + 1);
  }

  lemma NothingStands(c: Keys, i: nat)
    requires c.Shaped() && 0 < i < |c.times| - 1
    requires forall k, j :: 0 <= k < |c.times| && 0 <= j < c.stride ==> c.Sample(k, j) == c.Sample(0, j)
    ensures !Stands(c, i)
  {
    hide Keys.Sample;
  }

  lemma OptimizedParts(c: Keys, smooth: bool)
    requires c.Shaped()
    ensures var d, idx := Optimized(c, smooth), KeptKeys(c, smooth);
            && |d.times| == |idx| && d.stride == c.stride && d.Shaped()
            && forall q :: 0 <= q < |idx| ==> d.times[q] == c.times[idx[q]]
    ensures c.Valid() ==> Optimized(c, smooth).Valid()
    ensures c.Strict() ==> Optimized(c, smooth).Strict()
  {
    hide Keep, KeptKeys, PickRows;
    KeptKeysShape(c, smooth);
  }

  // A constant track shrinks to its first and last key.
  lemma ConstantShrinks(c: Keys)
    requires c.Shaped()
    requires forall k, j :: 0 <= k < |c.times| && 0 <= j < c.stride ==> c.Sample(k, j) == c.Sample(0, j)
    ensures |Optimized(c, false).times| <= 2
  {
    hide KeptKeys, Optimized, Keys.Sample, Stands, PickRows;
    var idx := KeptKeys(c, false);
    KeptKeysShape(c, false);
    OptimizedParts(c, false);
    if |idx| > 2 {
      assert idx[0] < idx[1] < idx[|idx| - 1] && idx[1] in idx;
      KeptIffNeeded(c, false, idx[1]);
      NothingStands(c, idx[1]);
    }
  }

  lemma OptimizedSample(c: Keys, smooth: bool, q: nat, j: nat)
    requires c.Shaped() && q < |KeptKeys(c, smooth)| && j < c.stride
    ensures Optimized(c, smooth).Shaped() && q < |Optimized(c, smooth).times| && Optimized(c, smooth).stride == c.stride
    ensures Optimized(c, smooth).Sample(q, j) == c.Sample(KeptKeys(c, smooth)[q], j)
  {
    hide Row, Keys.Sample, PickRows, KeptKeys;
    var idx := KeptKeys(c, smooth);
    OptimizedParts(c, smooth);
    RowOfPick(c, idx, q);
    RowIsSample(c, idx[q], j);
    RowIsSample(Optimized(c, smooth), q, j);
  }

  lemma NotBetween(idx: seq<nat>, q: nat, m: nat)
    requires Increasing(idx) && q + 1 < |idx| && idx[q] < m < idx[q + 1]
    ensures m !in idx
  {
    forall p | 0 <= p < |idx|
      ensures idx[p] != m
    {
      assert if p <= q then idx[p] <= idx[q] else idx[q + 1] <= idx[p];
    }
  }

  // The kept keys on both sides of interval i; between them nothing was kept.
  lemma Bracket(c: Keys, smooth: bool, i: nat) returns (q: nat)
    requires c.Shaped() && 0 < i < |c.times|
    ensures var idx := KeptKeys(c, smooth);
            && q + 1 < |idx| && idx[q] < i <= idx[q + 1] < |c.times|
            && forall m :: idx[q] < m < idx[q + 1] ==> !Keep(c, smooth, m)
  {
    hide Keep, KeptKeys;
    KeptKeysShape(c, smooth);
    var idx := KeptKeys(c, smooth);
    q := 0;
    while idx[q + 1] < i
      invariant q + 1 < |idx| && idx[q] < i
      decreases |idx| - q
    {
      q := q + 1;
    }
    forall m | idx[q] < m < idx[q + 1]
      ensures m !in idx
    {
      NotBetween(idx, q, m);
    }
  }

  // A blend straight from key a to key b.
  function Span(c: Keys, kind: Kind, a: nat, b: nat, t: real, j: nat): real
    requires c.Shaped() && !kind.Cubic? && j < c.stride && a < |c.times| && b < |c.times| && c.times[a] < c.times[b]
  {
    if kind.Discrete? then c.Sample(a, j)
    else
      var p := (t - c.times[a]) / (c.times[b] - c.times[a]);
      c.Sample(a, j) * (1.0 - p) + c.Sample(b, j) * p
  }

  // The optimized track at a time in interval i.
  lemma OptimizedValue(c: Keys, kind: Kind, t: real, j: nat) returns (q: nat)
    requires c.Valid() && !kind.Cubic? && j < c.stride && 0 < KeysUpTo(c.times, t) < |c.times|
    ensures var idx, d, i := KeptKeys(c, false), Optimized(c, false), KeysUpTo(c.times, t);
            && q + 1 < |idx| && idx[q] < i <= idx[q + 1] < |c.times|
            && (forall m :: idx[q] < m < idx[q + 1] ==> !Keep(c, false, m))
            && c.times[idx[q]] <= t < c.times[idx[q + 1]] && d.Valid() && d.stride == c.stride
            && Value(d, kind, t, j) == Span(c, kind, idx[q], idx[q + 1], t, j)
  {
    hide Keep, KeptKeys, Keys.Sample, PickRows, KeysUpTo;
    var i, idx, d := KeysUpTo(c.times, t), KeptKeys(c, false), Optimized(c, false);
    KeysUpToSplits(c.times, t);
    OptimizedParts(c, false);
    q := Bracket(c, false, i);
    OptimizedSample(c, false, q, j);
    OptimizedSample(c, false, q + 1, j);
    CountedAt(d, t, q + 1);
  }

  // ----------------------------------------------------------------- keeping the curve

  // The tracks whose curve survives whatever the samples: all times different, or all the
  // same; for the discrete kind only keys before the last time need to differ.
  ghost predicate Safe(times: seq<real>, kind: Kind)
    requires |times| > 0
  {
    var last := |times| - 1;
    if kind.Discrete? then
      forall i :: 0 <= i < last ==> times[i] < times[i + 1] || times[i + 1] == times[last]
    else
      (forall i :: 0 <= i < last ==> times[i] < times[i + 1]) || times[0] == times[last]
  }

  lemma ValueIsBlend(c: Keys, kind: Kind, t: real, j: nat)
    requires c.Valid() && !kind.Cubic? && j < c.stride && 0 < KeysUpTo(c.times, t) < |c.times|
    ensures var i := KeysUpTo(c.times, t);
            c.times[i - 1] <= t < c.times[i] && Value(c, kind, t, j) == Blend(c, kind, i, t, j)
  {
    hide Blend, KeysUpTo;
    KeysUpToSplits(c.times, t);
  }

  lemma OutsideKeepsCurve(c: Keys, smooth: bool, kind: Kind, t: real, j: nat)
    requires c.Valid() && j < c.stride
    requires KeysUpTo(c.times, t) == 0 || KeysUpTo(c.times, t) == |c.times|
    ensures Optimized(c, smooth).Valid() && Optimized(c, smooth).stride == c.stride
    ensures Outcome(Optimized(c, smooth), kind, t, j) == Outcome(c, kind, t, j)
  {
    hide Keep, KeptKeys, Keys.Sample, PickRows, Blend, KeysUpTo;
    var i, d, idx := KeysUpTo(c.times, t), Optimized(c, smooth), KeptKeys(c, smooth);
    OptimizedParts(c, smooth);
    KeptKeysShape(c, smooth);
    KeysUpToSplits(c.times, t);
    OptimizedSample(c, smooth, 0, j);
    OptimizedSample(c, smooth, |idx| - 1, j);
    CountedAt(d, t, if i == 0 then 0 else |idx|);
  }

  lemma Level(v: real, x: real, d: real)
    requires d > 0.0
    ensures v * (1.0 - x / d) + v * (x / d) == v
  {
    var p := x / d;
    assert v * (1.0 - p) + v * p == v;
  }

  // On a safe track no key below interval i shares its time with a neighbour.
  lemma GuardOpen(times: seq<real>, kind: Kind, i: nat, k: nat)
    requires Ordered(times) && !kind.Cubic? && 0 < |times| && Safe(times, kind)
    requires 0 < k < i < |times| && times[i - 1] < times[i]
    ensures times[k - 1] < times[k] < times[k + 1]
  {
    var last := |times| - 1;
    assert times[i] <= times[last] && times[0] <= times[i - 1];
    if k + 1 < i {
      assert times[k + 1] <= times[i - 1];
    }
    assert times[k] <= times[i - 1];
  }

  // Dropped keys before interval i repeat the sample of the key before them.
  lemma {:induction false} SameUpTo(c: Keys, kind: Kind, a: nat, b: nat, i: nat, k: nat, j: nat)
    requires c.Valid() && !kind.Cubic? && Safe(c.times, kind) && j < c.stride
    requires a <= k < i <= b < |c.times| && c.times[i - 1] < c.times[i]
    requires forall m :: a < m < b ==> !Keep(c, false, m)
    ensures c.Sample(k, j) == c.Sample(a, j)
    decreases k
  {
    hide Keys.Sample, Row;
    if a < k {
      SameUpTo(c, kind, a, b, i, k - 1, j);
      GuardOpen(c.times, kind, i, k);
      RowIsSample(c, k, j);
      RowIsSample(c, k - 1, j);
      assert !Keep(c, false, k) && SameSample(c, k, k - 1);
    }
  }

  lemma {:induction false} SameThrough(c: Keys, a: nat, b: nat, k: nat, j: nat)
    requires c.Valid() && Safe(c.times, Linear) && j < c.stride
    requires a < k <= b < |c.times| && a + 1 < b && c.times[a] < c.times[b]
    requires forall m :: a < m < b ==> !Keep(c, false, m)
    ensures c.Sample(k, j) == c.Sample(a, j)
    decreases k
  {
    hide Keys.Sample, Row;
    var m := if k == a + 1 then k else k - 1;
    assert c.times[0] <= c.times[a] && c.times[b] <= c.times[|c.times| - 1];
    assert !Keep(c, false, m) && SameSample(c, m, m - 1) && SameSample(c, m, m + 1);
    RowIsSample(c, m, j);
    RowIsSample(c, m - 1, j);
    RowIsSample(c, m + 1, j);
    if k > a + 1 {
      SameThrough(c, a, b, k - 1, j);
    }
  }

  lemma SpanIsBlend(c: Keys, kind: Kind, a: nat, b: nat, i: nat, t: real, j: nat)
    requires c.Valid() && !kind.Cubic? && Safe(c.times, kind) && j < c.stride
    requires a < i <= b < |c.times| && c.times[a] < c.times[b] && c.times[i - 1] <= t < c.times[i]
    requires forall m :: a < m < b ==> !Keep(c, false, m)
    ensures Span(c, kind, a, b, t, j) == Blend(c, kind, i, t, j)
  {
    hide Keep, Keys.Sample;
    SameUpTo(c, kind, a, b, i, i - 1, j);
    if kind.Linear? && !(a == i - 1 && b == i) {
      SameThrough(c, a, b, i, j);
      SameThrough(c, a, b, b, j);
      Level(c.Sample(a, j), t - c.times[a], c.times[b] - c.times[a]);
      Level(c.Sample(a, j), t - c.times[i - 1], c.times[i] - c.times[i - 1]);
    }
  }

  lemma OptimizeKeepsCurve(c: Keys, kind: Kind, t: real, j: nat)
    requires c.Valid() && !kind.Cubic? && Safe(c.times, kind) && j < c.stride
    ensures Optimized(c, false).Valid() && Optimized(c, false).stride == c.stride
    ensures Value(Optimized(c, false), kind, t, j) == Value(c, kind, t, j)
  {
    hide Keep, KeptKeys, Keys.Sample, PickRows, Blend, Span, KeysUpTo, Safe;
    var i := KeysUpTo(c.times, t);
    OptimizedParts(c, false);
    if i == 0 || i == |c.times| {
      OutsideKeepsCurve(c, false, kind, t, j);
    } else {
      var q := OptimizedValue(c, kind, t, j);
      var idx := KeptKeys(c, false);
      KeysUpToSplits(c.times, t);
      SpanIsBlend(c, kind, idx[q], idx[q + 1], i, t, j);
      ValueIsBlend(c, kind, t, j);
    }
  }

  // -------------------------------------------------------------- losing the curve

  ghost predicate SameAt(c: Keys, kind: Kind, t: real, j: nat)
    requires c.Valid() && !kind.Cubic? && j < c.stride
  {
    OptimizedParts(c, false);
    Value(Optimized(c, false), kind, t, j) == Value(c, kind, t, j)
  }

  // Whatever samples come with these times, optimize leaves the curve alone.
  ghost predicate Survives(times: seq<real>, kind: Kind)
    requires |times| > 0 && Ordered(times) && !kind.Cubic?
  {
    forall values: seq<real>, stride: nat, t: real, j: nat ::
      |values| == |times| * stride && j < stride ==> SameAt(Keys(times, values, stride), kind, t, j)
  }

  lemma LastAt(times: seq<real>, k: nat) returns (b: nat)
    requires Ordered(times) && k < |times| && times[k] < times[|times| - 1]
    ensures k <= b < |times| - 1 && times[b] == times[k] && times[b] < times[b + 1]
  {
    b := k;
    while times[b + 1] == times[k]
      invariant k <= b < |times| - 1 && times[b] == times[k]
      decreases |times| - b
    {
      b := b + 1;
    }
  }

  lemma FirstAt(times: seq<real>, k: nat) returns (a: nat)
    requires Ordered(times) && k < |times| && times[0] < times[k]
    ensures 0 < a <= k && times[a] == times[k] && times[a - 1] < times[a]
  {
    a := k;
    while times[a - 1] == times[k]
      invariant 0 < a <= k && times[a] == times[k]
      decreases a
    {
      a := a - 1;
    }
  }

  // The samples that are 1 from key a to key b and 0 elsewhere.
  function Bump(n: nat, a: nat, b: nat): (v: seq<real>)
    ensures |v| == n * 1
  {
    seq(n, k => if a <= k <= b then 1.0 else 0.0)
  }

  lemma BumpSamples(c: Keys, a: nat, b: nat)
    requires c.Shaped() && c.stride == 1 && c.values == Bump(|c.times|, a, b)
    ensures forall k :: 0 <= k < |c.times| ==> c.Sample(k, 0) == if a <= k <= b then 1.0 else 0.0
  {
  }

  // One number to a key, 1 at key x and 0 elsewhere.
  function Only(times: seq<real>, x: nat): Keys {
    Keys(times, Bump(|times|, x, x), 1)
  }

  lemma OnlySamples(times: seq<real>, x: nat)
    requires |times| > 0
    ensures Only(times, x).Shaped() && Only(times, x).times == times && Only(times, x).stride == 1
    ensures forall k :: 0 <= k < |times| ==> Only(times, x).Sample(k, 0) == if k == x then 1.0 else 0.0
  {
    assert |times| * 1 == |times|;
    BumpSamples(Only(times, x), x, x);
  }

  lemma NotKept(c: Keys, low: nat, b: nat)
    requires c.Valid() && c.stride == 1 && 0 < b < |c.times| - 1 && c.times[b - 1] == c.times[b]
    requires low == (if b == 1 then 1 else b - 1) && c.values == Bump(|c.times|, low, b + 1)
    ensures !Keep(c, false, b) && !Keep(c, false, low)
  {
    if b > 1 {
      assert Row(c.values, b, |c.times|, 1) == [1.0] == Row(c.values, b - 1, |c.times|, 1)
        == Row(c.values, b + 1, |c.times|, 1);
    }
  }

  lemma KeptOrFirst(c: Keys, q: nat)
    requires c.Shaped() && q < |KeptKeys(c, false)|
    ensures var k := KeptKeys(c, false)[q]; k == 0 || k == |c.times| - 1 || Keep(c, false, k)
  {
    hide Keep, KeptKeys;
    KeptKeysShape(c, false);
    assert KeptKeys(c, false)[q] in KeptKeys(c, false);
  }

  lemma ShortOfOne(v: real, x: real, d: real)
    requires 0.0 <= x < d && (v == 0.0 || v == 1.0)
    ensures 0.0 * (1.0 - x / d) + v * (x / d) < 1.0
  {
    var p := x / d;
    assert p * d == x;
    assert p < 1.0;
  }

  // Keys b - 1 and b share a time before the last: raise b and its neighbours, and the
  // curve no longer jumps there.
  lemma StepLost(times: seq<real>, kind: Kind, b: nat) returns (values: seq<real>, t: real)
    requires Ordered(times) && !kind.Cubic? && 0 < b < |times| - 1 && times[b - 1] == times[b] < times[b + 1]
    ensures |values| == |times| * 1 && !SameAt(Keys(times, values, 1), kind, t, 0)
  {
    hide KeysUpTo, Keys.Sample, KeptKeys, Row, Blend;
    var low := if b == 1 then 1 else b - 1;
    values, t := Bump(|times|, low, b + 1), times[b];
    var c := Keys(times, values, 1);
    CountedAt(c, t, b + 1);
    BumpSamples(c, low, b + 1);
    ValueIsBlend(c, kind, t, 0);
    BlendStarts(c, kind, b + 1, 0);
    NotKept(c, low, b);
    var q := OptimizedValue(c, kind, t, 0);
    var p, r := KeptKeys(c, false)[q], KeptKeys(c, false)[q + 1];
    KeptKeysShape(c, false);
    KeptOrFirst(c, q);
    ShortOfOne(c.Sample(r, 0), t - times[p], times[r] - times[p]);
  }

  lemma SharedTime(c: Keys, a: nat)
    requires c.Shaped() && 0 < a < |c.times| - 1 && c.times[a] == c.times[a + 1]
    ensures !Keep(c, false, a)
  {
  }

  lemma HalfWay(a: real, b: real)
    requires a < b
    ensures ((a + b) / 2.0 - a) / (b - a) == 0.5
  {
  }

  lemma Nothing(p: real)
    ensures 0.0 * (1.0 - p) + 0.0 * p == 0.0
  {
  }

  // Key a is the first of several at the last time: raise it alone, and the curve no longer
  // climbs towards it.
  lemma CornerLost(times: seq<real>, a: nat) returns (values: seq<real>, t: real)
    requires Ordered(times) && 0 < a < |times| - 1 && times[a - 1] < times[a] == times[a + 1]
    ensures |values| == |times| * 1 && !SameAt(Keys(times, values, 1), Linear, t, 0)
  {
    hide KeysUpTo, Keys.Sample, KeptKeys, Row, Keep;
    values, t := Bump(|times|, a, a), (times[a - 1] + times[a]) / 2.0;
    var c := Keys(times, values, 1);
    CountedAt(c, t, a);
    BumpSamples(c, a, a);
    ValueIsBlend(c, Linear, t, 0);
    HalfWay(times[a - 1], times[a]);
    SharedTime(c, a);
    var q := OptimizedValue(c, Linear, t, 0);
    var p, r := KeptKeys(c, false)[q], KeptKeys(c, false)[q + 1];
    KeptOrFirst(c, q + 1);
    assert r != a;
    Nothing((t - times[p]) / (times[r] - times[p]));
  }

  // An unsafe track has samples, one to a key, for which the curve changes.
  lemma OptimizeLosesCurve(times: seq<real>, kind: Kind) returns (values: seq<real>, t: real)
    requires |times| > 0 && Ordered(times) && !kind.Cubic? && !Safe(times, kind)
    ensures |values| == |times| * 1 && !SameAt(Keys(times, values, 1), kind, t, 0)
  {
    hide SameAt;
    var last := |times| - 1;
    var i :| 0 <= i < last && times[i] == times[i + 1];
    if k :| 0 <= k < last && times[k] == times[k + 1] && times[k] < times[last] {
      var b := LastAt(times, k + 1);
      values, t := StepLost(times, kind, b);
    } else {
      assert times[i] == times[last];
      var a := FirstAt(times, i);
      values, t := CornerLost(times, a);
    }
  }

  // Exactly the safe tracks survive.
  lemma SurvivesIffSafe(times: seq<real>, kind: Kind)
    requires |times| > 0 && Ordered(times) && !kind.Cubic?
    ensures Survives(times, kind) <==> Safe(times, kind)
  {
    hide Safe, Value, Optimized;
    if Safe(times, kind) {
      forall values: seq<real>, stride: nat, t: real, j: nat | |values| == |times| * stride && j < stride
        ensures SameAt(Keys(times, values, stride), kind, t, j)
      {
        OptimizeKeepsCurve(Keys(times, values, stride), kind, t, j);
      }
    } else {
      var values, t := OptimizeLosesCurve(times, kind);
      assert |values| == |times| * 1;
      assert !SameAt(Keys(times, values, 1), kind, t, 0);
    }
  }

  // ----------------------------------------------------------- nothing left to drop

  ghost predicate AllKept(c: Keys, smooth: bool)
    requires c.Shaped()
  {
    forall m :: 0 < m < |c.times| - 1 ==> Keep(c, smooth, m)
  }

  lemma {:induction false} KeptAll(c: Keys, smooth: bool, i: nat)
    requires c.Shaped() && AllKept(c, smooth) && 0 < i < |c.times|
    ensures KeptBelow(c, smooth, i) == seq(i, q requires 0 <= q < i => q)
  {
    hide Keep;
    if i > 1 {
      KeptAll(c, smooth, i - 1);
    }
  }

  lemma NothingDropped(c: Keys, smooth: bool)
    requires c.Shaped() && AllKept(c, smooth)
    ensures Optimized(c, smooth) == c
  {
    hide Row, PickRows, Keep;
    var n, idx := |c.times|, KeptKeys(c, smooth);
    if n > 1 { KeptAll(c, smooth, n - 1); }
    assert forall q :: 0 <= q < n ==> idx[q] == q;
    forall q | 0 <= q < n
      ensures Row(PickRows(c, idx), q, n, c.stride) == Row(c.values, q, n, c.stride)
    {
      RowOfPick(c, idx, q);
    }
    RowsDetermine(PickRows(c, idx), c.values, n, c.stride);
  }

  // A smooth track with strictly increasing times is left as it is.
  lemma SmoothKeepsAll(c: Keys)
    requires c.Shaped() && c.Strict()
    ensures Optimized(c, true) == c
  {
    NothingDropped(c, true);
  }

  lemma OptimizedRow(c: Keys, q: nat)
    requires c.Shaped() && q < |KeptKeys(c, false)|
    ensures var d := Optimized(c, false);
            && d.Shaped() && q < |d.times| && d.stride == c.stride
            && Row(d.values, q, |d.times|, d.stride) == Row(c.values, KeptKeys(c, false)[q], |c.times|, c.stride)
  {
    hide Row, KeptKeys, PickRows, Keep;
    OptimizedParts(c, false);
    RowOfPick(c, KeptKeys(c, false), q);
  }

  lemma KeptBetween(c: Keys, q: nat)
    requires c.Shaped() && 0 < q < |KeptKeys(c, false)| - 1
    ensures var idx := KeptKeys(c, false);
            && 0 <= idx[q - 1] < idx[q] < idx[q + 1] < |c.times| && Keep(c, false, idx[q])
  {
    hide KeptKeys, Keep;
    KeptKeysShape(c, false);
    KeptOrFirst(c, q);
  }

  // A kept key's neighbours in the original have the samples of its kept neighbours.
  lemma NeighboursAlike(c: Keys, q: nat)
    requires c.Shaped() && c.Strict() && 0 < q < |KeptKeys(c, false)| - 1
    ensures var idx := KeptKeys(c, false);
            && 0 < idx[q] < |c.times| - 1
            && (idx[q - 1] == idx[q] - 1 || SameSample(c, idx[q] - 1, idx[q]))
            && (idx[q + 1] == idx[q] + 1 || SameSample(c, idx[q] + 1, idx[q]))
  {
    hide Row, KeptKeys;
    var idx := KeptKeys(c, false);
    KeptKeysShape(c, false);
    KeptBetween(c, q);
    var m := idx[q];
    if idx[q - 1] < m - 1 {
      NotBetween(idx, q - 1, m - 1);
      assert !Keep(c, false, m - 1);
    }
    if m + 1 < idx[q + 1] {
      NotBetween(idx, q, m + 1);
      assert !Keep(c, false, m + 1);
    }
  }

  lemma StillNeeded(c: Keys, q: nat)
    requires c.Shaped() && c.Strict() && 0 < q < |KeptKeys(c, false)| - 1
    ensures var d := Optimized(c, false); d.Shaped() && q < |d.times| - 1 && Keep(d, false, q)
  {
    hide Row, KeptKeys, Optimized, Increasing;
    OptimizedParts(c, false);
    OptimizedRow(c, q - 1);
    OptimizedRow(c, q);
    OptimizedRow(c, q + 1);
    KeptBetween(c, q);
    NeighboursAlike(c, q);
  }

  // So what is left stands out from what is left beside it.
  lemma NoSpareLeft(c: Keys, q: nat)
    requires c.Shaped() && c.Strict() && Optimized(c, false).Shaped() && 0 < q < |Optimized(c, false).times| - 1
    ensures Stands(Optimized(c, false), q)
  {
    hide Optimized, KeptKeys, Keys.Sample, Row, SameSample;
    var d := Optimized(c, false);
    OptimizedParts(c, false);
    StillNeeded(c, q);
    SameSampleIs(d, q, q - 1);
    SameSampleIs(d, q, q + 1);
  }

  // Optimizing twice is optimizing once: what is kept is still needed next to what is kept.
  lemma OptimizedTwice(c: Keys)
    requires c.Shaped() && c.Strict()
    ensures Optimized(c, false).Shaped() && Optimized(Optimized(c, false), false) == Optimized(c, false)
  {
    hide Keep, KeptKeys, Optimized;
    var d := Optimized(c, false);
    OptimizedParts(c, false);
    forall q | 0 < q < |d.times| - 1
      ensures Keep(d, false, q)
    {
      StillNeeded(c, q);
    }
    NothingDropped(d, false);
  }
}
