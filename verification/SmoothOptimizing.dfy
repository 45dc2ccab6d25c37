// When dropping keys leaves a smooth curve as it was. Only keys that share their time with
// the next one are dropped, and the cubic pieces beside them had no value to begin with.
module SmoothOptimizing {
  import opened Interpolation
  import opened Curves
  import opened Tracks
  import opened TrackOptimizing

  ghost predicate SameOutcome(c: Keys, kind: Kind, t: real, j: nat)
    requires c.Valid() && j < c.stride
  {
    OptimizedParts(c, true);
    Outcome(Optimized(c, true), kind, t, j) == Outcome(c, kind, t, j)
  }

  // ------------------------------------------------------------- the times that are safe

  ghost predicate Rises(times: seq<real>) {
    forall i :: 0 <= i < |times| - 1 ==> times[i] < times[i + 1]
  }

  ghost predicate RisesAfterFirst(times: seq<real>)
    requires |times| > 0
  {
    forall i :: 0 <= i < |times| - 1 && times[0] < times[i] ==> times[i] < times[i + 1]
  }

  predicate Within(times: seq<real>, i: nat)
    requires i < |times|
  {
    times[0] < times[i] < times[|times| - 1]
  }

  // At most two different times, or at most three.
  ghost predicate TwoTimes(times: seq<real>) {
    forall i: nat :: i < |times| ==> !Within(times, i)
  }

  ghost predicate ThreeTimes(times: seq<real>) {
    forall i: nat, k: nat :: i < |times| && k < |times| && Within(times, i) && Within(times, k) ==> times[i] == times[k]
  }

  // All times differ; or three keys or more share the first time, and after it all times
  // differ, or so few are left that no cubic piece has a value.
  ghost predicate SmoothSafe(times: seq<real>, end: Ending)
    requires |times| > 0
  {
    || |times| <= 2
    || Rises(times)
    || (times[0] == times[2]
        && (RisesAfterFirst(times) || TwoTimes(times) || (end.WrapAround? && ThreeTimes(times))))
  }

  // ------------------------------------------------------------------- where keys end up

  lemma KeptAt(c: Keys, m: nat) returns (p: nat)
    requires c.Shaped() && m < |c.times|
    requires m == 0 || m == |c.times| - 1 || Keep(c, true, m)
    ensures p < |KeptKeys(c, true)| && KeptKeys(c, true)[p] == m
  {
    hide Keep, KeptKeys;
    KeptKeysShape(c, true);
    var idx := KeptKeys(c, true);
    p :| 0 <= p < |idx| && idx[p] == m;
  }

  lemma Adjacent(idx: seq<nat>, p: nat, r: nat)
    requires Increasing(idx) && p < |idx| && r < |idx| && idx[r] == idx[p] + 1
    ensures r == p + 1
  {
    assert p < r && idx[p] < idx[p + 1] <= idx[r];
  }

  // Kept keys share a time only if they are the first two, of three or more.
  lemma KeptGap(c: Keys, q: nat)
    requires c.Valid() && |c.times| > 2 && q + 1 < |KeptKeys(c, true)|
    requires q > 0 || c.times[0] < c.times[2]
    ensures var idx := KeptKeys(c, true); c.times[idx[q]] < c.times[idx[q + 1]]
  {
    hide KeptKeys;
    KeptKeysShape(c, true);
    var idx := KeptKeys(c, true);
    assert idx[q] < idx[q + 1] <= idx[|idx| - 1];
    if q > 0 {
      assert idx[0] < idx[q];
      assert idx[q] in idx && Keep(c, true, idx[q]);
    } else if idx[1] == 1 {
      assert 1 in idx && Keep(c, true, 1);
    }
  }

  lemma RisingIsStrict(c: Keys)
    requires c.Valid() && Rises(c.times)
    ensures c.Strict()
  {
    forall j, k | 0 <= j < k < |c.times|
      ensures c.times[j] < c.times[k]
    {
      assert c.times[j] <= c.times[k - 1] < c.times[k];
    }
  }

  lemma OptimizedStrict(c: Keys)
    requires c.Valid() && |c.times| > 2 && c.times[0] < c.times[2]
    ensures Optimized(c, true).Valid() && Optimized(c, true).Strict()
  {
    hide Keep, KeptKeys, PickRows;
    OptimizedParts(c, true);
    var d := Optimized(c, true);
    forall q | 0 <= q < |d.times| - 1
      ensures d.times[q] < d.times[q + 1]
    {
      KeptGap(c, q);
    }
    RisingIsStrict(d);
  }

  // The key before interval i, if it is kept, with the kept key on the other side.
  lemma IntervalKept(c: Keys, i: nat) returns (q: nat)
    requires c.Valid() && 0 < i < |c.times| && c.times[i - 1] < c.times[i]
    requires i == 2 ==> c.times[0] < c.times[1]
    ensures var idx := KeptKeys(c, true);
            && q + 1 < |idx| && idx[q] == i - 1 && i <= idx[q + 1] < |c.times|
            && c.times[idx[q + 1]] == c.times[i]
  {
    hide KeptKeys;
    KeptKeysShape(c, true);
    var idx, last := KeptKeys(c, true), |c.times| - 1;
    q := KeptAt(c, i - 1);
    assert q < |idx| - 1;
    assert idx[q] < idx[q + 1] <= idx[|idx| - 1];
    var b := last;
    if c.times[i] < c.times[last] {
      b := LastAt(c.times, i);
    }
    var p := KeptAt(c, b);
    assert q < p;
    assert idx[q + 1] <= idx[p];
  }

  lemma CountInOptimized(c: Keys, i: nat, q: nat, t: real)
    requires c.Valid() && 0 < i < |c.times| && c.times[i - 1] <= t < c.times[i]
    requires var idx := KeptKeys(c, true);
             q + 1 < |idx| && idx[q] == i - 1 && idx[q + 1] < |c.times| && c.times[idx[q + 1]] == c.times[i]
    ensures Optimized(c, true).Valid() && |Optimized(c, true).times| == |KeptKeys(c, true)|
    ensures KeysUpTo(Optimized(c, true).times, t) == q + 1
  {
    hide KeptKeys, PickRows, Keep;
    OptimizedParts(c, true);
    CountedAt(Optimized(c, true), t, q + 1);
  }

  // --------------------------------------------------------------- where there is a value

  lemma NoValue(c: Keys, kind: Kind, i: nat, t: real, j: nat)
    requires c.Valid() && j < c.stride && 0 < i < |c.times|
    requires c.times[i - 1] <= t < c.times[i] && !KeysDiffer(c, kind, i)
    ensures Outcome(c, kind, t, j) == NaN
  {
    hide KeysDiffer, Value;
    CountedAt(c, t, i);
  }

  lemma GapsDiffer(d: Keys, kind: Kind, m: nat)
    requires kind.Cubic? && 2 <= m < |d.times| && d.times[m - 2] < d.times[m - 1] < d.times[m]
    requires if m + 1 < |d.times| then d.times[m] < d.times[m + 1] else !kind.end.WrapAround?
    ensures KeysDiffer(d, kind, m)
  {
    hide Keys.Strict;
  }

  lemma KeptDiffer(c: Keys, kind: Kind, i: nat, q: nat)
    requires c.Valid() && kind.Cubic? && 0 < i < |c.times| && c.times[0] < c.times[i - 1] < c.times[i]
    requires kind.end.WrapAround? ==> c.times[i] < c.times[|c.times| - 1]
    requires var idx := KeptKeys(c, true);
             q + 1 < |idx| && idx[q] == i - 1 && idx[q + 1] < |c.times| && c.times[idx[q + 1]] == c.times[i]
    ensures 0 < q && q + 1 < |Optimized(c, true).times| && KeysDiffer(Optimized(c, true), kind, q + 1)
  {
    hide KeptKeys, Optimized, Keep, Keys.Strict, KeysDiffer;
    var idx := KeptKeys(c, true);
    KeptKeysShape(c, true);
    OptimizedParts(c, true);
    if q > 1 {
      KeptGap(c, q - 1);
    }
    if q + 2 < |idx| {
      KeptGap(c, q + 1);
    }
    GapsDiffer(Optimized(c, true), kind, q + 1);
  }

  // Past the first time and not wrapping around, the optimized curve has a value.
  lemma HasValue(c: Keys, kind: Kind, i: nat, t: real, j: nat)
    requires c.Valid() && kind.Cubic? && j < c.stride && 0 < i < |c.times|
    requires c.times[0] < c.times[i - 1] <= t < c.times[i]
    requires kind.end.WrapAround? ==> c.times[i] < c.times[|c.times| - 1]
    ensures var d := Optimized(c, true); d.Valid() && d.stride == c.stride && Outcome(d, kind, t, j).Real?
  {
    hide KeptKeys, Optimized, Keep, Value, KeysUpTo, KeysDiffer;
    OptimizedParts(c, true);
    var q := IntervalKept(c, i);
    CountInOptimized(c, i, q, t);
    KeptDiffer(c, kind, i, q);
  }

  // ---------------------------------------------------------------------- keeping the curve

  // The optimized keys around an interval whose neighbours were all kept.
  lemma SameInterval(c: Keys, kind: Kind, i: nat, q: nat, t: real, j: nat)
    requires c.Valid() && kind.Cubic? && j < c.stride && 2 <= i < |c.times| && 0 < q && c.times[i - 1] <= t < c.times[i]
    requires var idx := KeptKeys(c, true);
             && q + 1 < |idx| && idx[q - 1] == i - 2 && idx[q] == i - 1 && idx[q + 1] == i
             && (if i + 1 < |c.times| then q + 2 < |idx| && idx[q + 2] == i + 1 else q + 2 == |idx|)
             && c.times[0] == c.times[1] == c.times[idx[1]]
    ensures var d := Optimized(c, true);
            && d.Valid() && d.stride == c.stride && Outcome(d, kind, t, j) == Outcome(c, kind, t, j)
  {
    hide KeptKeys, PickRows, Keep, KeysUpTo, Keys.Sample, CubicBlend, Keys.Strict, Outcome;
    var d := Optimized(c, true);
    OptimizedParts(c, true);
    KeptKeysShape(c, true);
    CountInOptimized(c, i, q, t);
    CountedAt(c, t, i);
    OptimizedSample(c, true, q - 1, j);
    OptimizedSample(c, true, q, j);
    OptimizedSample(c, true, q + 1, j);
    if i + 1 < |c.times| {
      OptimizedSample(c, true, q + 2, j);
    }
    hide Optimized, Increasing;
    OutcomeInside(c, kind, i, t, j);
    OutcomeInside(d, kind, q + 1, t, j);
  }

  // The last key at the first time is kept, so the first two kept keys share it.
  lemma FirstTwoShare(c: Keys, i: nat)
    requires c.Valid() && 2 < i < |c.times| && c.times[0] == c.times[2] < c.times[i]
    ensures |KeptKeys(c, true)| > 1 && KeptKeys(c, true)[1] < |c.times| && c.times[KeptKeys(c, true)[1]] == c.times[0]
  {
    hide KeptKeys;
    KeptKeysShape(c, true);
    var b := LastAt(c.times, 2);
    var p := KeptAt(c, b);
    assert KeptKeys(c, true)[1] <= KeptKeys(c, true)[p];
  }

  // From the first time to the next there was no value, and there is none.
  lemma FirstIntervalAlike(c: Keys, kind: Kind, i: nat, t: real, j: nat)
    requires c.Valid() && kind.Cubic? && j < c.stride && 2 < i < |c.times|
    requires c.times[0] == c.times[2] == c.times[i - 1] <= t < c.times[i]
    ensures SameOutcome(c, kind, t, j)
  {
    hide KeptKeys, PickRows, Keep, KeysUpTo, Outcome;
    OptimizedParts(c, true);
    KeptKeysShape(c, true);
    var q := IntervalKept(c, i);
    CountInOptimized(c, i, q, t);
    NoValue(c, kind, i, t, j);
    NoValue(Optimized(c, true), kind, q + 1, t, j);
  }

  // Into the last time, when the curve wraps around into keys that share the first.
  lemma LastIntervalAlike(c: Keys, kind: Kind, i: nat, t: real, j: nat)
    requires c.Valid() && kind.Cubic? && kind.end.WrapAround? && j < c.stride && 2 < i < |c.times|
    requires c.times[0] == c.times[2] < c.times[i - 1] <= t < c.times[i] == c.times[|c.times| - 1]
    ensures SameOutcome(c, kind, t, j)
  {
    hide KeptKeys, PickRows, Keep, KeysUpTo, Outcome;
    OptimizedParts(c, true);
    KeptKeysShape(c, true);
    FirstTwoShare(c, i);
    var q := IntervalKept(c, i);
    CountInOptimized(c, i, q, t);
    NoValue(c, kind, i, t, j);
    NoValue(Optimized(c, true), kind, q + 1, t, j);
  }

  // Where all times differ the keys around an interval are kept.
  lemma LaterIntervalAlike(c: Keys, kind: Kind, i: nat, t: real, j: nat)
    requires c.Valid() && kind.Cubic? && j < c.stride && 2 < i < |c.times| && RisesAfterFirst(c.times)
    requires c.times[0] == c.times[2] < c.times[i - 1] <= t < c.times[i]
    ensures SameOutcome(c, kind, t, j)
  {
    hide KeptKeys, Optimized, Outcome;
    var idx, last := KeptKeys(c, true), |c.times| - 1;
    KeptKeysShape(c, true);
    FirstTwoShare(c, i);
    assert c.times[i - 2] < c.times[i - 1];
    var r := KeptAt(c, i - 2);
    var q := KeptAt(c, i - 1);
    Adjacent(idx, r, q);
    var s := KeptAt(c, i);
    Adjacent(idx, q, s);
    if i < last {
      var u := KeptAt(c, i + 1);
      Adjacent(idx, s, u);
    }
    assert q + 2 < |idx| ==> idx[q + 1] < idx[|idx| - 1];
    SameInterval(c, kind, i, q, t, j);
  }

  lemma RisingKeepsAll(c: Keys)
    requires c.Shaped() && (|c.times| <= 2 || Rises(c.times))
    ensures Optimized(c, true) == c
  {
    NothingDropped(c, true);
  }

  lemma SmoothKeepsCurve(c: Keys, kind: Kind, t: real, j: nat)
    requires c.Valid() && kind.Cubic? && j < c.stride && SmoothSafe(c.times, kind.end)
    ensures SameOutcome(c, kind, t, j)
  {
    hide Keep, Optimized, Outcome, KeysUpTo;
    var n, i := |c.times|, KeysUpTo(c.times, t);
    KeysUpToSplits(c.times, t);
    if i == 0 || i == n {
      OutsideKeepsCurve(c, true, kind, t, j);
    } else if n <= 2 || Rises(c.times) {
      RisingKeepsAll(c);
    } else if c.times[i - 1] == c.times[0] {
      FirstIntervalAlike(c, kind, i, t, j);
    } else if RisesAfterFirst(c.times) {
      LaterIntervalAlike(c, kind, i, t, j);
    } else {
      assert c.times[0] < c.times[i - 1] < c.times[i] <= c.times[n - 1];
      assert Within(c.times, i - 1);
      assert c.times[i] == c.times[n - 1];
      LastIntervalAlike(c, kind, i, t, j);
    }
  }

  // ---------------------------------------------------------------------- losing the curve

  // Fewer than three keys at the first time, and some time shared: what is left all differs,
  // and there are values where there were none.
  lemma ValueAppears(times: seq<real>, kind: Kind) returns (t: real)
    requires |times| > 2 && Ordered(times) && kind.Cubic? && !Rises(times) && times[0] < times[2]
    ensures forall c: Keys :: c.times == times && c.Shaped() && 0 < c.stride ==> !SameOutcome(c, kind, t, 0)
  {
    hide Optimized, KeysUpTo, Value;
    var k :| 0 <= k < |times| - 1 && times[k] == times[k + 1];
    var i := 2;
    if times[0] < times[1] {
      i := FirstAt(times, k);
    }
    t := times[i - 1];
    forall c: Keys | c.times == times && c.Shaped() && 0 < c.stride
      ensures !SameOutcome(c, kind, t, 0)
    {
      NoValue(c, kind, i, t, 0);
      OptimizedStrict(c);
    }
  }

  // A time shared past the first one, away from where the curve wraps around.
  lemma ValueAppearsAt(c: Keys, kind: Kind, i: nat)
    requires c.Valid() && kind.Cubic? && 0 < c.stride && 2 <= i < |c.times| && c.times[0] < c.times[i - 1] < c.times[i]
    requires kind.end.WrapAround? ==> c.times[i] < c.times[|c.times| - 1]
    requires c.times[i - 2] == c.times[i - 1] || (i + 1 < |c.times| && c.times[i] == c.times[i + 1])
    ensures !SameOutcome(c, kind, c.times[i - 1], 0)
  {
    hide Optimized, Outcome;
    NoValue(c, kind, i, c.times[i - 1], 0);
    HasValue(c, kind, i, c.times[i - 1], 0);
  }

  // Which interval that is.
  lemma SharedPastFirst(times: seq<real>, end: Ending, k: nat) returns (i: nat)
    requires |times| > 2 && Ordered(times) && k < |times| - 1 && times[0] < times[k] == times[k + 1]
    requires !TwoTimes(times) && (end.WrapAround? ==> !ThreeTimes(times) && times[k] < times[|times| - 1])
    ensures 2 <= i < |times| && times[0] < times[i - 1] < times[i]
    ensures end.WrapAround? ==> times[i] < times[|times| - 1]
    ensures times[i - 2] == times[i - 1] || (i + 1 < |times| && times[i] == times[i + 1])
  {
    i := FirstAt(times, k);
    assert times[i] <= times[i + 1] <= times[k + 1];
    var x: nat :| x < |times| && Within(times, x);
    if times[0] == times[i - 1] {
      assert times[k] <= times[x];
      var b := LastAt(times, k + 1);
      i := b + 1;
      assert times[k] <= times[b - 1];
      if end.WrapAround? {
        var y: nat, z: nat :|
          y < |times| && z < |times| && Within(times, y) && Within(times, z) && times[y] != times[z];
        assert times[k] <= times[y] && times[k] <= times[z];
      }
    } else if times[k] == times[|times| - 1] {
      assert times[x] <= times[i - 1];
    }
  }

  lemma FlatBlend(wP: real, wN: real, p: real)
    ensures CubicBlend(wP, wN, p, 0.0, 0.0, 0.0, 0.0) == 0.0
  {
  }

  lemma TiltedBlend(wP: real, wN: real)
    ensures CubicBlend(wP, wN, 0.5, 0.0, 0.0, 0.0, 1.0) == wN * -0.125
  {
  }

  lemma NonzeroQuotient(x: real, g: real)
    requires x != 0.0 && g != 0.0
    ensures x / g != 0.0
  {
    assert x / g * g == x;
  }

  // Keys a to the last share a time, and the three before them all have their own.
  ghost predicate EndsShared(times: seq<real>, a: nat) {
    && Ordered(times) && 3 <= a < |times| - 1
    && times[0] < times[a - 2] && times[a - 3] < times[a - 2] < times[a - 1] < times[a] == times[|times| - 1]
  }

  lemma KeptAtTheEnd(c: Keys, a: nat) returns (q: nat)
    requires c.Valid() && EndsShared(c.times, a)
    ensures var idx := KeptKeys(c, true);
            && 0 < q && q + 2 < |idx| && idx[q - 1] < a - 2
            && idx[q] == a - 2 && idx[q + 1] == a - 1 && idx[q + 2] == |c.times| - 1
  {
    hide KeptKeys;
    var idx, last := KeptKeys(c, true), |c.times| - 1;
    KeptKeysShape(c, true);
    q := KeptAt(c, a - 2);
    var r := KeptAt(c, a - 1);
    Adjacent(idx, q, r);
    assert idx[r] < idx[|idx| - 1];
    forall m | a <= m < last
      ensures m !in idx
    {
      assert c.times[a] <= c.times[m] <= c.times[m + 1] <= c.times[last];
    }
    assert idx[r] < idx[r + 1] <= idx[|idx| - 1];
    assert idx[r + 1] in idx;
  }

  lemma FlatBefore(times: seq<real>, kind: Kind, a: nat, t: real)
    requires EndsShared(times, a) && kind.Cubic? && times[a - 2] <= t < times[a - 1]
    ensures Only(times, |times| - 1).Valid() && Only(times, |times| - 1).stride == 1
    ensures Outcome(Only(times, |times| - 1), kind, t, 0) == Real(0.0)
  {
    hide Only, Keys.Sample, CubicBlend, KeysUpTo;
    var c := Only(times, |times| - 1);
    OnlySamples(times, |times| - 1);
    CountedAt(c, t, a - 1);
    OutcomeInside(c, kind, a - 1, t, 0);
    FlatBlend(WeightPrev(c, kind.start, a - 1), WeightNext(c, kind.end, a - 1),
              (t - times[a - 2]) / (times[a - 1] - times[a - 2]));
  }

  lemma TiltedAfter(times: seq<real>, kind: Kind, a: nat, t: real)
    requires EndsShared(times, a) && kind.Cubic? && t == (times[a - 2] + times[a - 1]) / 2.0
    ensures var d := Optimized(Only(times, |times| - 1), true);
            d.Valid() && d.stride == 1 && Outcome(d, kind, t, 0) != Real(0.0)
  {
    hide Only, Keys.Sample, CubicBlend, KeysUpTo, KeptKeys, Optimized;
    var c := Only(times, |times| - 1);
    OnlySamples(times, |times| - 1);
    var d := Optimized(c, true);
    OptimizedParts(c, true);
    var q := KeptAtTheEnd(c, a);
    CountInOptimized(c, a - 1, q, t);
    OptimizedSample(c, true, q - 1, 0);
    OptimizedSample(c, true, q, 0);
    OptimizedSample(c, true, q + 1, 0);
    OptimizedSample(c, true, q + 2, 0);
    OutcomeInside(d, kind, q + 1, t, 0);
    HalfWay(times[a - 2], times[a - 1]);
    if KeysDiffer(d, kind, q + 1) {
      TiltedBlend(WeightPrev(d, kind.start, q + 1), WeightNext(d, kind.end, q + 1));
      NonzeroQuotient(HalfGap(d, q + 1), GapNext(d, kind.end, q + 1));
    }
  }

  // Several keys at the last time: of those only the last stays, and the piece two times
  // before turns towards its sample.
  lemma EndLost(times: seq<real>, kind: Kind, a: nat) returns (t: real)
    requires EndsShared(times, a) && kind.Cubic?
    ensures Only(times, |times| - 1).Valid() && Only(times, |times| - 1).stride == 1
    ensures !SameOutcome(Only(times, |times| - 1), kind, t, 0)
  {
    hide Optimized, Outcome, Only;
    t := (times[a - 2] + times[a - 1]) / 2.0;
    FlatBefore(times, kind, a, t);
    TiltedAfter(times, kind, a, t);
  }

  lemma FindEndsShared(times: seq<real>, k: nat) returns (a: nat)
    requires |times| > 2 && Ordered(times) && k < |times| - 1 && times[0] == times[2] && !ThreeTimes(times)
    requires times[0] < times[k] == times[k + 1] == times[|times| - 1]
    requires forall i :: 0 <= i < |times| - 1 && times[0] < times[i] < times[|times| - 1] ==> times[i] < times[i + 1]
    ensures EndsShared(times, a)
  {
    var last := |times| - 1;
    a := FirstAt(times, k);
    var x: nat, y: nat :| x < |times| && y < |times| && Within(times, x) && Within(times, y) && times[x] != times[y];
    if times[y] < times[x] {
      x, y := y, x;
    }
    assert x < y < a;
    assert times[y] <= times[a - 1] && x <= a - 2;
    assert times[x] <= times[a - 2] <= times[a - 3 + 1];
    assert times[a - 2] < times[last];
    assert times[a - 2] < times[a - 1];
    assert a >= 4 && times[a - 3] < times[a - 2];
  }

  // A key past the first time that shares its time, before the last if that wraps around.
  ghost predicate SharedAt(times: seq<real>, end: Ending, k: nat) {
    && k + 1 < |times| && times[0] < times[k] == times[k + 1]
    && (end.WrapAround? ==> times[k] < times[|times| - 1])
  }

  lemma LosesAfterFirst(times: seq<real>, kind: Kind, k: nat) returns (t: real)
    requires |times| > 2 && Ordered(times) && kind.Cubic? && times[0] == times[2] && !TwoTimes(times)
    requires kind.end.WrapAround? ==> !ThreeTimes(times)
    requires k + 1 < |times| && times[0] < times[k] == times[k + 1]
    ensures Only(times, |times| - 1).Valid() && Only(times, |times| - 1).stride == 1
    ensures !SameOutcome(Only(times, |times| - 1), kind, t, 0)
  {
    hide SameOutcome, Only, TwoTimes, ThreeTimes, Within;
    OnlySamples(times, |times| - 1);
    if m: nat :| SharedAt(times, kind.end, m) {
      var i := SharedPastFirst(times, kind.end, m);
      ValueAppearsAt(Only(times, |times| - 1), kind, i);
      t := times[i - 1];
    } else {
      assert !SharedAt(times, kind.end, k);
      forall i | 0 <= i < |times| - 1 && times[0] < times[i] < times[|times| - 1]
        ensures times[i] < times[i + 1]
      {
        assert !SharedAt(times, kind.end, i);
      }
      var a := FindEndsShared(times, k);
      t := EndLost(times, kind, a);
    }
  }

  lemma Shared(times: seq<real>) returns (k: nat)
    requires |times| > 0 && Ordered(times) && !RisesAfterFirst(times)
    ensures k + 1 < |times| && times[0] < times[k] == times[k + 1]
  {
    k :| k + 1 < |times| && times[0] < times[k] && !(times[k] < times[k + 1]);
  }

  // Unsafe times have samples, one to a key, whose smooth curve changes.
  lemma SmoothLosesCurve(times: seq<real>, kind: Kind) returns (values: seq<real>, t: real)
    requires |times| > 0 && Ordered(times) && kind.Cubic? && !SmoothSafe(times, kind.end)
    ensures |values| == |times| * 1 && !SameOutcome(Keys(times, values, 1), kind, t, 0)
  {
    hide SameOutcome, Bump, TwoTimes, ThreeTimes, Rises, RisesAfterFirst;
    values := Only(times, |times| - 1).values;
    OnlySamples(times, |times| - 1);
    assert Only(times, |times| - 1) == Keys(times, values, 1);
    if times[0] < times[2] {
      t := ValueAppears(times, kind);
    } else {
      var k := Shared(times);
      t := LosesAfterFirst(times, kind, k);
    }
  }

  // Whatever samples come with these times, optimize leaves the smooth curve alone.
  ghost predicate SmoothSurvives(times: seq<real>, kind: Kind)
    requires |times| > 0 && Ordered(times) && kind.Cubic?
  {
    forall values: seq<real>, stride: nat, t: real, j: nat ::
      |values| == |times| * stride && j < stride ==> SameOutcome(Keys(times, values, stride), kind, t, j)
  }

  // Exactly the safe tracks survive.
  lemma SmoothSurvivesIffSafe(times: seq<real>, kind: Kind)
    requires |times| > 0 && Ordered(times) && kind.Cubic?
    ensures SmoothSurvives(times, kind) <==> SmoothSafe(times, kind.end)
  {
    hide SmoothSafe, SameOutcome;
    if SmoothSafe(times, kind.end) {
      forall values: seq<real>, stride: nat, t: real, j: nat | |values| == |times| * stride && j < stride
        ensures SameOutcome(Keys(times, values, stride), kind, t, j)
      {
        SmoothKeepsCurve(Keys(times, values, stride), kind, t, j);
      }
    } else {
      var values, t := SmoothLosesCurve(times, kind);
      assert |values| == |times| * 1;
      assert !SameOutcome(Keys(times, values, 1), kind, t, 0);
    }
  }
}
