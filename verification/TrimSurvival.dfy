// Exactly when cutting a track leaves its value at a time as it was, whatever the samples.
module TrimSurvival {
  import opened Interpolation
  import opened Curves
  import opened Tracks
  import opened TrackOptimizing
  import opened TrackTrimming

  ghost predicate SameAfterCut(c: Keys, kind: Kind, from: nat, to: nat, t: real, j: nat)
    requires c.Valid() && from < to <= |c.times| && j < c.stride
  {
    CutParts(c, from, to);
    Outcome(Cut(c, from, to), kind, t, j) == Outcome(c, kind, t, j)
  }

  // The condition, on the times alone. Outside all keys the end key must stay. In the gap
  // behind the cut only a value that is that of the key there is kept. Inside the cut there
  // must be a value before and after or neither time; if there is, a cubic piece needs its
  // neighbours, unless t is the key it starts from.
  ghost predicate CutKeeps(times: seq<real>, kind: Kind, from: nat, to: nat, t: real)
    requires from < to <= |times|
  {
    var c, d := Keys(times, [], 0), Keys(times[from..to], [], 0);
    var i, n := KeysUpTo(times, t), |times|;
    if i == 0 then from == 0
    else if i == n then to == n
    else if i <= from then false
    else if i >= to then i == to && KeysDiffer(c, kind, i) && (kind.Discrete? || t == times[i - 1])
    else
      && (KeysDiffer(c, kind, i) <==> KeysDiffer(d, kind, i - from))
      && (kind.Cubic? && KeysDiffer(c, kind, i) ==> t == times[i - 1] || Undisturbed(c, kind, from, to, t))
  }

  // -------------------------------------------------------------------- the value of a cut

  lemma DifferByTimes(c: Keys, d: Keys, kind: Kind, i: nat)
    requires c.times == d.times && 0 < i < |c.times|
    ensures KeysDiffer(c, kind, i) <==> KeysDiffer(d, kind, i)
  {
    hide Keys.Strict;
  }

  // Before its first key and after its last a cut has their samples.
  lemma CutOutside(c: Keys, kind: Kind, from: nat, to: nat, t: real, j: nat)
    requires c.Valid() && from < to <= |c.times| && j < c.stride
    requires KeysUpTo(c.times, t) <= from || to <= KeysUpTo(c.times, t)
    ensures var d := Cut(c, from, to);
            && d.Valid() && d.stride == c.stride
            && Outcome(d, kind, t, j) == Real(c.Sample(if to <= KeysUpTo(c.times, t) then to - 1 else from, j))
  {
    hide Keys.Sample, Cut, KeysUpTo, Blend;
    var d, i := Cut(c, from, to), KeysUpTo(c.times, t);
    KeysUpToSplits(c.times, t);
    CutParts(c, from, to);
    CutSample(c, from, to, from, j);
    CutSample(c, from, to, to - 1, j);
    CountedAt(d, t, if to <= i then to - from else 0);
  }

  // Inside, the blend of its own keys.
  lemma CutInside(c: Keys, kind: Kind, from: nat, to: nat, i: nat, t: real, j: nat)
    requires c.Valid() && from < i < to <= |c.times| && j < c.stride && c.times[i - 1] <= t < c.times[i]
    ensures var d := Cut(c, from, to);
            && d.Valid() && d.stride == c.stride && i - from < |d.times| && d.times[i - from - 1] < d.times[i - from]
            && d.times == c.times[from..to]
            && Outcome(d, kind, t, j)
               == if KeysDiffer(d, kind, i - from) then Real(Blend(d, kind, i - from, t, j)) else NaN
  {
    hide Keys.Sample, Cut, KeysUpTo, Blend, KeysDiffer, Outcome;
    var d := Cut(c, from, to);
    CutParts(c, from, to);
    CountedAt(d, t, i - from);
    OutcomeInside(d, kind, i - from, t, j);
  }

  lemma UncutInside(c: Keys, kind: Kind, i: nat, t: real, j: nat)
    requires c.Valid() && 0 < i < |c.times| && j < c.stride && c.times[i - 1] <= t < c.times[i]
    ensures Outcome(c, kind, t, j) == if KeysDiffer(c, kind, i) then Real(Blend(c, kind, i, t, j)) else NaN
  {
    hide Keys.Sample, KeysUpTo, Blend, KeysDiffer, Outcome;
    CountedAt(c, t, i);
    OutcomeInside(c, kind, i, t, j);
  }

  // -------------------------------------------------------------------- keeping the value

  lemma KeepsAtKey(c: Keys, kind: Kind, from: nat, to: nat, i: nat, j: nat)
    requires c.Valid() && from < i < to <= |c.times| && j < c.stride && c.times[i - 1] < c.times[i]
    requires KeysDiffer(c, kind, i) && KeysDiffer(Cut(c, from, to), kind, i - from)
    ensures SameAfterCut(c, kind, from, to, c.times[i - 1], j)
  {
    hide Keys.Sample, Cut, KeysUpTo, Blend, KeysDiffer, Outcome;
    var t := c.times[i - 1];
    UncutInside(c, kind, i, t, j);
    CutInside(c, kind, from, to, i, t, j);
    BlendStarts(c, kind, i, j);
    BlendStarts(Cut(c, from, to), kind, i - from, j);
    CutSample(c, from, to, i - 1, j);
  }

  lemma KeepsInside(c: Keys, kind: Kind, from: nat, to: nat, i: nat, t: real, j: nat)
    requires c.Valid() && from < i < to <= |c.times| && j < c.stride
    requires i == KeysUpTo(c.times, t) && c.times[i - 1] <= t < c.times[i]
    requires CutKeeps(c.times, kind, from, to, t)
    ensures SameAfterCut(c, kind, from, to, t, j)
  {
    hide Keys.Sample, Cut, KeysUpTo, Blend, KeysDiffer, Outcome;
    var d := Cut(c, from, to);
    UncutInside(c, kind, i, t, j);
    CutInside(c, kind, from, to, i, t, j);
    DifferByTimes(c, Keys(c.times, [], 0), kind, i);
    DifferByTimes(d, Keys(c.times[from..to], [], 0), kind, i - from);
    if KeysDiffer(c, kind, i) {
      if !kind.Cubic? {
        CutBlend(c, kind, from, to, i, t, j);
      } else if t == c.times[i - 1] {
        KeepsAtKey(c, kind, from, to, i, j);
      } else {
        CutCubic(c, kind, from, to, i, t, j);
      }
    }
  }

  lemma DiscreteBlend(c: Keys, i: nat, t: real, j: nat)
    requires c.Valid() && 0 < i < |c.times| && c.times[i - 1] < c.times[i] && j < c.stride
    ensures Blend(c, Discrete, i, t, j) == c.Sample(i - 1, j)
  {
  }

  lemma CutKeepsValue(c: Keys, kind: Kind, from: nat, to: nat, t: real, j: nat)
    requires c.Valid() && from < to <= |c.times| && j < c.stride && CutKeeps(c.times, kind, from, to, t)
    ensures SameAfterCut(c, kind, from, to, t, j)
  {
    hide Keys.Sample, Cut, KeysUpTo, Blend, KeysDiffer;
    var i, n := KeysUpTo(c.times, t), |c.times|;
    KeysUpToSplits(c.times, t);
    if i == 0 || i == n {
      CutOutside(c, kind, from, to, t, j);
    } else if i >= to {
      CutOutside(c, kind, from, to, t, j);
      UncutInside(c, kind, i, t, j);
      DifferByTimes(c, Keys(c.times, [], 0), kind, i);
      if kind.Discrete? {
        DiscreteBlend(c, i, t, j);
      } else {
        BlendStarts(c, kind, i, j);
      }
    } else {
      KeepsInside(c, kind, from, to, i, t, j);
    }
  }

  // ------------------------------------------------------- the coefficients of a piece

  lemma Positive(a: real, b: real, c: real)
    requires a > 0.0 && b > 0.0 && c == a * b
    ensures c > 0.0
  {
  }

  // The four products of p and 1 - p are positive.
  predicate Inner(p: real, pp: real, ppp: real) {
    && 0.0 < ppp && 0.0 < pp - ppp && 0.0 < p - 2.0 * pp + ppp && 0.0 < 1.0 - 3.0 * p + 3.0 * pp - ppp
  }

  lemma InnerProducts(p: real, pp: real, ppp: real)
    requires pp == p * p && ppp == pp * p
    ensures (1.0 - p) * (1.0 - p) == 1.0 - 2.0 * p + pp
    ensures pp * (1.0 - p) == pp - ppp
    ensures p * (1.0 - 2.0 * p + pp) == p - 2.0 * pp + ppp
    ensures (1.0 - p) * (1.0 - 2.0 * p + pp) == 1.0 - 3.0 * p + 3.0 * pp - ppp
  {
  }

  lemma PlaceIsInner(p: real)
    requires 0.0 < p < 1.0
    ensures Inner(p, Square(p), Cube(p))
  {
    var pp, ppp := Square(p), Cube(p);
    InnerProducts(p, pp, ppp);
    Positive(p, p, pp);
    Positive(pp, p, ppp);
    Positive(pp, 1.0 - p, pp - ppp);
    Positive(1.0 - p, 1.0 - p, 1.0 - 2.0 * p + pp);
    Positive(p, 1.0 - 2.0 * p + pp, p - 2.0 * pp + ppp);
    Positive(1.0 - p, 1.0 - 2.0 * p + pp, 1.0 - 3.0 * p + 3.0 * pp - ppp);
  }

  // The coefficients, with each weight in one product.
  lemma FourSplit(wP: real, wN: real, p: real, pp: real, ppp: real, x: real, y: real)
    requires x == wP * (p - 2.0 * pp + ppp) && y == wN * (pp - ppp)
    ensures var f := Coefficients(wP, wN, p, pp, ppp);
            && f.sP == -x && f.s0 == ppp - 1.5 * pp - 0.5 * p + 1.0 + x
            && f.s1 == 1.5 * pp - ppp + 0.5 * p + y && f.sN == -y
  {
    assert x == wP * p - 2.0 * (wP * pp) + wP * ppp;
    assert y == wN * pp - wN * ppp;
  }

  lemma AtLeast(w: real, low: real, a: real, x: real)
    requires w >= low && a > 0.0 && x == w * a
    ensures x >= low * a
    ensures w > 0.0 ==> x > 0.0
  {
    if w > low { Positive(w - low, a, x - low * a); }
    if w > 0.0 { Positive(w, a, x); }
  }

  // With no weight below minus a half, the two samples around t pull towards themselves,
  // also when one of the neighbours coincides with them.
  predicate Pulls(f: Four) {
    f.s0 > 0.0 && f.s0 + f.sP > 0.0 && f.s1 > 0.0 && f.s1 + f.sN > 0.0
  }

  lemma FourPulls(f: Four, p: real, pp: real, ppp: real, x: real, y: real)
    requires Inner(p, pp, ppp) && x >= -0.5 * (p - 2.0 * pp + ppp) && y >= -0.5 * (pp - ppp)
    requires f.sP == -x && f.s0 == ppp - 1.5 * pp - 0.5 * p + 1.0 + x
    requires f.s1 == 1.5 * pp - ppp + 0.5 * p + y && f.sN == -y
    ensures Pulls(f)
    ensures x <= 0.5 * (p - 2.0 * pp + ppp) ==> f.s1 + f.sP > 0.0 && f.s1 + f.sN + f.sP > 0.0
  {
  }

  lemma FourSigns(wP: real, wN: real, p: real)
    requires 0.0 < p < 1.0 && wP >= -0.5 && wN >= -0.5
    ensures var f := Coefficients(wP, wN, p, Square(p), Cube(p));
            && Pulls(f) && (wP > 0.0 ==> f.sP < 0.0) && (wN > 0.0 ==> f.sN < 0.0) && (wN == -0.5 ==> f.sN > 0.0)
            && (wP <= 0.5 ==> f.s1 + f.sP > 0.0 && f.s1 + f.sN + f.sP > 0.0)
  {
    hide Square, Cube, Coefficients, Pulls;
    var pp, ppp := Square(p), Cube(p);
    var a, b := p - 2.0 * pp + ppp, pp - ppp;
    var x, y := wP * a, wN * b;
    PlaceIsInner(p);
    FourSplit(wP, wN, p, pp, ppp, x, y);
    AtLeast(wP, -0.5, a, x);
    AtLeast(wN, -0.5, b, y);
    if wP <= 0.5 { AtLeast(-wP, -0.5, a, -x); }
    FourPulls(Coefficients(wP, wN, p, pp, ppp), p, pp, ppp, x, y);
  }

  // ------------------------------------------------------------------ losing the value

  function Unit(b: bool): real {
    if b then 1.0 else 0.0
  }

  function Place(times: seq<real>, i: nat, t: real): real
    requires 0 < i < |times| && times[i - 1] < times[i]
  {
    (t - times[i - 1]) / (times[i] - times[i - 1])
  }

  lemma NotPositive(p: real, d: real, x: real)
    requires p <= 0.0 && d > 0.0 && x == p * d
    ensures x <= 0.0
  {
  }

  lemma Fraction(x: real, d: real)
    requires 0.0 < x < d
    ensures 0.0 < x / d < 1.0
  {
    var p := x / d;
    assert p * d == x;
    assert (1.0 - p) * d == d - x;
    if p <= 0.0 { NotPositive(p, d, x); }
    if 1.0 - p <= 0.0 { NotPositive(1.0 - p, d, d - x); }
  }

  function PieceFour(c: Keys, kind: Kind, i: nat, t: real): Four
    requires kind.Cubic? && 0 < i < |c.times| && c.times[i - 1] < c.times[i] && KeysDiffer(c, kind, i)
  {
    var p := Place(c.times, i, t);
    Coefficients(WeightPrev(c, kind.start, i), WeightNext(c, kind.end, i), p, Square(p), Cube(p))
  }

  lemma QuotientSign(x: real, g: real)
    requires x > 0.0 && g != 0.0
    ensures g > 0.0 ==> x / g > 0.0
    ensures g == 2.0 * x ==> x / g == 0.5
    ensures g == -2.0 * x ==> x / g == -0.5
  {
    var w := x / g;
    assert w * g == x;
  }

  lemma PrevWeight(c: Keys, start: Ending, i: nat)
    requires c.Valid() && 0 < i < |c.times| && c.times[i - 1] < c.times[i] && GapPrev(c, start, i) != 0.0
    ensures var w := WeightPrev(c, start, i);
            && w >= -0.5
            && (if i >= 2 || start.WrapAround? then w > 0.0 else w <= 0.5)
            && (|c.times| == 2 ==> w <= 0.5)
  {
    hide Keys.Strict;
    QuotientSign(HalfGap(c, i), GapPrev(c, start, i));
  }

  lemma NextWeight(c: Keys, end: Ending, i: nat)
    requires c.Valid() && 0 < i < |c.times| && c.times[i - 1] < c.times[i] && GapNext(c, end, i) != 0.0
    ensures var w := WeightNext(c, end, i);
            && w >= -0.5
            && (i + 1 < |c.times| || end.WrapAround? ==> w > 0.0)
            && (i + 1 == |c.times| && end.ZeroCurvature? ==> w == -0.5)
  {
    hide Keys.Strict;
    QuotientSign(HalfGap(c, i), GapNext(c, end, i));
  }

  lemma PieceSigns(c: Keys, kind: Kind, i: nat, t: real)
    requires c.Valid() && kind.Cubic? && 0 < i < |c.times| && c.times[i - 1] < t < c.times[i] && KeysDiffer(c, kind, i)
    ensures var f, n := PieceFour(c, kind, i, t), |c.times|;
            && (i >= 2 || kind.start.WrapAround? ==> f.sP < 0.0)
            && (i + 1 < n || kind.end.WrapAround? ==> f.sN < 0.0)
            && Pulls(f)
            && (i + 1 == n && kind.end.ZeroCurvature? ==> f.sN > 0.0)
            && (n == 2 ==> f.s1 + f.sP > 0.0 && f.s1 + f.sN + f.sP > 0.0)
  {
    hide WeightPrev, WeightNext, Coefficients, Keys.Strict;
    var p := Place(c.times, i, t);
    Fraction(t - c.times[i - 1], c.times[i] - c.times[i - 1]);
    PrevWeight(c, kind.start, i);
    NextWeight(c, kind.end, i);
    FourSigns(WeightPrev(c, kind.start, i), WeightNext(c, kind.end, i), p);
  }

  function Pulled(f: Four, prev: bool, first: bool, second: bool, next: bool): real {
    (if prev then f.sP else 0.0) + (if first then f.s0 else 0.0)
    + (if second then f.s1 else 0.0) + (if next then f.sN else 0.0)
  }

  lemma MixUnits(f: Four, prev: bool, first: bool, second: bool, next: bool)
    ensures Mix(f, Unit(prev), Unit(first), Unit(second), Unit(next)) == Pulled(f, prev, first, second, next)
  {
  }

  // The cubic outcome of a track with a single sample that is not zero.
  lemma OnlyOutcome(times: seq<real>, kind: Kind, i: nat, x: nat, t: real)
    requires Ordered(times) && kind.Cubic? && 0 < i < |times| && times[i - 1] <= t < times[i]
    ensures Only(times, x).Valid() && Only(times, x).stride == 1
    ensures var c := Only(times, x);
            Outcome(c, kind, t, 0) ==
            if KeysDiffer(c, kind, i) then
              Real(Pulled(PieceFour(c, kind, i, t), IndexPrev(c, kind.start, i) == x, i - 1 == x, i == x,
                          IndexNext(c, kind.end, i) == x))
            else NaN
  {
    hide Only, Keys.Sample, WeightPrev, WeightNext, IndexPrev, IndexNext, KeysDiffer, Coefficients, Mix, Outcome;
    hide Pulled;
    var c := Only(times, x);
    OnlySamples(times, x);
    UncutInside(c, kind, i, t, 0);
    if KeysDiffer(c, kind, i) {
      MixUnits(PieceFour(c, kind, i, t), IndexPrev(c, kind.start, i) == x, i - 1 == x, i == x,
               IndexNext(c, kind.end, i) == x);
    }
  }

  // Some samples, one to a key, lose the value at t.
  ghost predicate Loses(times: seq<real>, kind: Kind, from: nat, to: nat, t: real, x: nat)
    requires Ordered(times) && from < to <= |times|
  {
    OnlySamples(times, x);
    !SameAfterCut(Only(times, x), kind, from, to, t, 0)
  }

  // A piece without a value, or one that is not the sample of key k, when the cut has that.
  lemma LosesTo(times: seq<real>, kind: Kind, from: nat, to: nat, i: nat, t: real) returns (x: nat)
    requires Ordered(times) && kind.Cubic? && from < to <= |times| && 0 < i < |times| && (i <= from || to <= i)
    requires times[i - 1] < t < times[i]
    ensures Loses(times, kind, from, to, t, x)
  {
    hide Only, KeysUpTo, Keys.Sample, Outcome, PieceFour, KeysDiffer, Cut;
    var n := |times|;
    x := if i <= from then (if i >= 2 then i - 2 else 0) else if i + 1 < n then i + 1 else i;
    var c := Only(times, x);
    OnlySamples(times, x);
    CountedAt(c, t, i);
    CutOutside(c, kind, from, to, t, 0);
    OnlyOutcome(times, kind, i, x, t);
    if KeysDiffer(c, kind, i) {
      PieceSigns(c, kind, i, t);
    }
  }

  lemma LosesToAtKey(times: seq<real>, kind: Kind, from: nat, to: nat, i: nat)
    requires Ordered(times) && from < to <= |times| && 0 < i < |times| && times[i - 1] < times[i]
    requires i <= from || to < i || (to == i && !KeysDiffer(Only(times, i - 1), kind, i))
    ensures Loses(times, kind, from, to, times[i - 1], i - 1)
  {
    hide Only, KeysUpTo, Keys.Sample, Outcome, KeysDiffer, Cut, Blend;
    var c, t := Only(times, i - 1), times[i - 1];
    OnlySamples(times, i - 1);
    CountedAt(c, t, i);
    CutOutside(c, kind, from, to, t, 0);
    UncutInside(c, kind, i, t, 0);
    if KeysDiffer(c, kind, i) {
      BlendStarts(c, kind, i, 0);
    }
  }

  lemma LosesStep(times: seq<real>, from: nat, to: nat, i: nat, t: real)
    requires Ordered(times) && from < to <= |times| && 0 < i < |times| && times[i - 1] <= t < times[i]
    requires i <= from || to < i
    ensures Loses(times, Discrete, from, to, t, i - 1)
  {
    hide Only, KeysUpTo, Keys.Sample, Outcome, Cut, Blend;
    var c := Only(times, i - 1);
    OnlySamples(times, i - 1);
    CountedAt(c, t, i);
    CutOutside(c, Discrete, from, to, t, 0);
    UncutInside(c, Discrete, i, t, 0);
    DiscreteBlend(c, i, t, 0);
  }

  lemma UnitMix(p: real)
    ensures 1.0 * (1.0 - p) + 0.0 * p == 1.0 - p && 0.0 * (1.0 - p) + 1.0 * p == p
  {
  }

  lemma LosesLine(times: seq<real>, from: nat, to: nat, i: nat, t: real) returns (x: nat)
    requires Ordered(times) && from < to <= |times| && 0 < i < |times| && times[i - 1] < t < times[i]
    requires i <= from || to <= i
    ensures Loses(times, Linear, from, to, t, x)
  {
    hide Only, KeysUpTo, Keys.Sample, Outcome, Cut;
    x := if i <= from then i - 1 else i;
    var c := Only(times, x);
    OnlySamples(times, x);
    CountedAt(c, t, i);
    CutOutside(c, Linear, from, to, t, 0);
    UncutInside(c, Linear, i, t, 0);
    Fraction(t - times[i - 1], times[i] - times[i - 1]);
    UnitMix((t - times[i - 1]) / (times[i] - times[i - 1]));
  }

  lemma StepDiffers(times: seq<real>, i: nat)
    requires 0 < i < |times|
    ensures KeysDiffer(Keys(times, [], 0), Discrete, i)
  {
  }

  lemma LosesOutside(times: seq<real>, kind: Kind, from: nat, to: nat, i: nat, t: real) returns (x: nat)
    requires Ordered(times) && from < to <= |times| && 0 < i < |times| && times[i - 1] <= t < times[i]
    requires i == KeysUpTo(times, t) && (i <= from || to <= i) && !CutKeeps(times, kind, from, to, t)
    ensures Loses(times, kind, from, to, t, x)
  {
    hide Only, KeysUpTo, KeysDiffer, Loses;
    OnlySamples(times, i - 1);
    DifferByTimes(Only(times, i - 1), Keys(times, [], 0), kind, i);
    if t == times[i - 1] {
      x := i - 1;
      LosesToAtKey(times, kind, from, to, i);
    } else {
      match kind {
        case Discrete =>
          x := i - 1;
          StepDiffers(times, i);
          LosesStep(times, from, to, i, t);
        case Linear => x := LosesLine(times, from, to, i, t);
        case _ => x := LosesTo(times, kind, from, to, i, t);
      }
    }
  }

  // Before the first or after the last of all keys, when that one goes.
  lemma LosesEnd(times: seq<real>, kind: Kind, from: nat, to: nat, t: real) returns (x: nat)
    requires Ordered(times) && from < to <= |times|
    requires (KeysUpTo(times, t) == 0 && 0 < from) || (KeysUpTo(times, t) == |times| && to < |times|)
    ensures Loses(times, kind, from, to, t, x)
  {
    hide Only, KeysUpTo, Keys.Sample, Cut, Blend;
    x := if KeysUpTo(times, t) == 0 then 0 else |times| - 1;
    OnlySamples(times, x);
    CutOutside(Only(times, x), kind, from, to, t, 0);
  }

  // Inside the cut, one of the two tracks has a value and the other has none.
  lemma LosesNumber(times: seq<real>, kind: Kind, from: nat, to: nat, i: nat, t: real)
    requires Ordered(times) && from < i < to <= |times| && times[i - 1] <= t < times[i]
    requires !(KeysDiffer(Keys(times, [], 0), kind, i) <==> KeysDiffer(Keys(times[from..to], [], 0), kind, i - from))
    ensures Loses(times, kind, from, to, t, 0)
  {
    hide Only, KeysUpTo, Keys.Sample, Outcome, KeysDiffer, Cut, Blend;
    var c := Only(times, 0);
    OnlySamples(times, 0);
    UncutInside(c, kind, i, t, 0);
    CutInside(c, kind, from, to, i, t, 0);
    DifferByTimes(c, Keys(times, [], 0), kind, i);
    DifferByTimes(Cut(c, from, to), Keys(times[from..to], [], 0), kind, i - from);
  }

  // Where key x is in the cut, or a number past its keys.
  function InCut(from: nat, to: nat, x: nat): nat
    requires from < to
  {
    if from <= x then x - from else to - from
  }

  // Cutting such a track gives one again, or one of zeros.
  lemma CutOnly(times: seq<real>, from: nat, to: nat, x: nat)
    requires from < to <= |times|
    ensures Only(times, x).Shaped()
    ensures Cut(Only(times, x), from, to) == Only(times[from..to], InCut(from, to, x))
  {
    OnlySamples(times, x);
    var y := InCut(from, to, x);
    assert Bump(|times|, x, x)[from * 1..to * 1] == Bump(to - from, y, y);
  }

  lemma OrderedRange(times: seq<real>, from: nat, to: nat)
    requires Ordered(times) && from < to <= |times|
    ensures Ordered(times[from..to])
  {
  }

  // Both outcomes inside the cut, where both tracks have a value.
  lemma BothOutcomes(times: seq<real>, kind: Kind, from: nat, to: nat, i: nat, x: nat, t: real)
    requires Ordered(times) && kind.Cubic? && from < i < to <= |times| && times[i - 1] <= t < times[i]
    requires KeysDiffer(Only(times, x), kind, i)
    requires KeysDiffer(Only(times[from..to], InCut(from, to, x)), kind, i - from)
    ensures var y := InCut(from, to, x);
            var c, d := Only(times, x), Only(times[from..to], y);
            (Pulled(PieceFour(c, kind, i, t), IndexPrev(c, kind.start, i) == x, i - 1 == x, i == x,
                    IndexNext(c, kind.end, i) == x)
             != Pulled(PieceFour(d, kind, i - from, t), IndexPrev(d, kind.start, i - from) == y, i - from - 1 == y,
                       i - from == y, IndexNext(d, kind.end, i - from) == y))
            ==> Loses(times, kind, from, to, t, x)
  {
    hide Only, Keys.Sample, PieceFour, Pulled, KeysDiffer, Cut, Blend, Outcome;
    var y := InCut(from, to, x);
    CutOnly(times, from, to, x);
    OrderedRange(times, from, to);
    OnlyOutcome(times, kind, i, x, t);
    OnlyOutcome(times[from..to], kind, i - from, y, t);
    OnlySamples(times, x);
    OnlySamples(times[from..to], y);
  }

  // The key before the interval, or the one after it, is cut off.
  lemma LosesNeighbour(times: seq<real>, kind: Kind, from: nat, to: nat, i: nat, t: real) returns (x: nat)
    requires Ordered(times) && kind.Cubic? && from < i < to <= |times| && times[i - 1] < t < times[i]
    requires KeysDiffer(Keys(times, [], 0), kind, i) && KeysDiffer(Keys(times[from..to], [], 0), kind, i - from)
    requires (0 < from && from + 1 == i) || (i + 1 == to && to < |times|)
    ensures Loses(times, kind, from, to, t, x)
  {
    hide Only, Keys.Sample, PieceFour, KeysDiffer, Loses;
    x := if i + 1 == to && to < |times| then i + 1 else i - 2;
    var c, d := Only(times, x), Only(times[from..to], to - from);
    OnlySamples(times, x);
    OnlySamples(times[from..to], to - from);
    DifferByTimes(c, Keys(times, [], 0), kind, i);
    DifferByTimes(Only(times[from..to], InCut(from, to, x)), Keys(times[from..to], [], 0), kind, i - from);
    BothOutcomes(times, kind, from, to, i, x, t);
    PieceSigns(c, kind, i, t);
  }

  // A coefficient depends on the distance to its own neighbour only.
  lemma SameCoefficient(c: Keys, d: Keys, kind: Kind, from: nat, i: nat, t: real)
    requires kind.Cubic? && Window(c, d, from) && from < i < from + |d.times| && c.times[i - 1] < c.times[i]
    requires KeysDiffer(c, kind, i) && KeysDiffer(d, kind, i - from)
    ensures d.times[i - from - 1] < d.times[i - from]
    ensures GapPrev(c, kind.start, i) == GapPrev(d, kind.start, i - from) ==>
              PieceFour(c, kind, i, t).sP == PieceFour(d, kind, i - from, t).sP
    ensures GapNext(c, kind.end, i) == GapNext(d, kind.end, i - from) ==>
              PieceFour(c, kind, i, t).sN == PieceFour(d, kind, i - from, t).sN
  {
    hide GapPrev, GapNext;
    assert d.times[i - from] == c.times[i] && d.times[i - from - 1] == c.times[i - 1];
  }

  // The neighbour across the seam is another key once the end it is at has been cut.
  lemma LosesSeam(times: seq<real>, kind: Kind, from: nat, to: nat, i: nat, t: real) returns (x: nat)
    requires Ordered(times) && kind.Cubic? && from < i < to <= |times| && times[i - 1] < t < times[i]
    requires KeysDiffer(Keys(times, [], 0), kind, i) && KeysDiffer(Keys(times[from..to], [], 0), kind, i - from)
    requires (from == 0 || from + 2 <= i) && (to == |times| || i + 1 < to)
    requires (i == 1 && kind.start.WrapAround? && to < |times|)
          || (i + 1 == |times| && kind.end.WrapAround? && 0 < from)
    ensures Loses(times, kind, from, to, t, x)
  {
    hide Only, Keys.Sample, PieceFour, KeysDiffer, Loses, GapPrev, GapNext;
    x := if i == 1 then |times| - 2 else 1;
    var y := InCut(from, to, x);
    var c, d := Only(times, x), Only(times[from..to], y);
    OnlySamples(times, x);
    OnlySamples(times[from..to], y);
    DifferByTimes(c, Keys(times, [], 0), kind, i);
    DifferByTimes(d, Keys(times[from..to], [], 0), kind, i - from);
    BothOutcomes(times, kind, from, to, i, x, t);
    PieceSigns(c, kind, i, t);
    SameCoefficient(c, d, kind, from, i, t);
    if i == 1 {
      NextInWindow(c, d, kind.end, from, i);
    } else {
      PrevInWindow(c, d, kind.start, from, i);
    }
  }

  lemma LosesInside(times: seq<real>, kind: Kind, from: nat, to: nat, i: nat, t: real) returns (x: nat)
    requires Ordered(times) && from < i < to <= |times| && times[i - 1] <= t < times[i]
    requires i == KeysUpTo(times, t) && !CutKeeps(times, kind, from, to, t)
    ensures Loses(times, kind, from, to, t, x)
  {
    hide KeysUpTo, KeysDiffer, Loses;
    var differ := KeysDiffer(Keys(times, [], 0), kind, i);
    if differ != KeysDiffer(Keys(times[from..to], [], 0), kind, i - from) {
      x := 0;
      LosesNumber(times, kind, from, to, i, t);
    } else if (0 < from && from + 1 == i) || (i + 1 == to && to < |times|) {
      x := LosesNeighbour(times, kind, from, to, i, t);
    } else {
      x := LosesSeam(times, kind, from, to, i, t);
    }
  }

  // Whatever samples come with these times, the cut leaves the value at t alone.
  ghost predicate CutSurvives(times: seq<real>, kind: Kind, from: nat, to: nat, t: real)
    requires Ordered(times) && from < to <= |times|
  {
    forall values: seq<real>, stride: nat, j: nat ::
      |values| == |times| * stride && j < stride ==> SameAfterCut(Keys(times, values, stride), kind, from, to, t, j)
  }

  // Where the condition fails, a single sample that is not zero shows it.
  lemma CutLosesValue(times: seq<real>, kind: Kind, from: nat, to: nat, t: real) returns (x: nat)
    requires Ordered(times) && from < to <= |times| && !CutKeeps(times, kind, from, to, t)
    ensures Loses(times, kind, from, to, t, x)
  {
    hide Loses, KeysUpTo, KeysDiffer, Undisturbed;
    var i := KeysUpTo(times, t);
    KeysUpToSplits(times, t);
    if i == 0 || i == |times| {
      x := LosesEnd(times, kind, from, to, t);
    } else if i <= from || to <= i {
      x := LosesOutside(times, kind, from, to, i, t);
    } else {
      x := LosesInside(times, kind, from, to, i, t);
    }
  }

  lemma CutSurvivesIff(times: seq<real>, kind: Kind, from: nat, to: nat, t: real)
    requires Ordered(times) && from < to <= |times|
    ensures CutSurvives(times, kind, from, to, t) <==> CutKeeps(times, kind, from, to, t)
  {
    hide CutKeeps, SameAfterCut, Only, KeysUpTo;
    if CutKeeps(times, kind, from, to, t) {
      forall values: seq<real>, stride: nat, j: nat | |values| == |times| * stride && j < stride
        ensures SameAfterCut(Keys(times, values, stride), kind, from, to, t, j)
      {
        CutKeepsValue(Keys(times, values, stride), kind, from, to, t, j);
      }
    } else {
      var x := CutLosesValue(times, kind, from, to, t);
      OnlySamples(times, x);
      assert Only(times, x) == Keys(times, Only(times, x).values, 1);
    }
  }

  ghost predicate SameTrimmed(c: Keys, kind: Kind, s: real, e: real, t: real, j: nat)
    requires c.Valid() && j < c.stride
  {
    var r := TrimmedRange(c.times, s, e);
    CutParts(c, r.0, r.1);
    Outcome(Trimmed(c, s, e), kind, t, j) == Outcome(c, kind, t, j)
  }

  lemma TrimIsCut(c: Keys, kind: Kind, s: real, e: real, t: real, j: nat)
    requires c.Valid() && j < c.stride
    ensures var r := TrimmedRange(c.times, s, e);
            SameTrimmed(c, kind, s, e, t, j) <==> SameAfterCut(c, kind, r.0, r.1, t, j)
  {
    hide Cut, Outcome, TrimmedRange;
  }

  // A trim is a cut: exactly there its samples do not matter.
  lemma TrimSurvivesIff(times: seq<real>, kind: Kind, s: real, e: real, t: real)
    requires |times| > 0 && Ordered(times)
    ensures var r := TrimmedRange(times, s, e);
            (forall values: seq<real>, stride: nat, j: nat :: |values| == |times| * stride && j < stride ==>
               SameTrimmed(Keys(times, values, stride), kind, s, e, t, j))
            <==> CutKeeps(times, kind, r.0, r.1, t)
  {
    hide CutKeeps, SameAfterCut, TrimmedRange;
    var r := TrimmedRange(times, s, e);
    CutSurvivesIff(times, kind, r.0, r.1, t);
    forall values: seq<real>, stride: nat, j: nat | |values| == |times| * stride && j < stride
      ensures SameTrimmed(Keys(times, values, stride), kind, s, e, t, j) <==>
              SameAfterCut(Keys(times, values, stride), kind, r.0, r.1, t, j)
    {
      TrimIsCut(Keys(times, values, stride), kind, s, e, t, j);
    }
  }
}
