// What the interpolants draw: curves through every key, and for the cubic kind Hermite
// pieces whose slopes agree where they meet.
module Curves {
  import opened Interpolation

  lemma OutcomeInside(c: Keys, kind: Kind, i: nat, t: real, j: nat)
    requires c.Valid() && j < c.stride && i == KeysUpTo(c.times, t) && 0 < i < |c.times| && c.times[i - 1] < c.times[i]
    ensures Outcome(c, kind, t, j) == if KeysDiffer(c, kind, i) then Real(Blend(c, kind, i, t, j)) else NaN
  {
    hide Keys.Sample, KeysUpTo, Blend, KeysDiffer;
  }

  lemma CubicStarts(wP: real, wN: real, vP: real, v0: real, v1: real, vN: real)
    ensures CubicBlend(wP, wN, 0.0, vP, v0, v1, vN) == v0
  {
  }

  lemma BlendStarts(c: Keys, kind: Kind, i: nat, j: nat)
    requires c.Valid() && 0 < i < |c.times| && c.times[i - 1] < c.times[i] && KeysDiffer(c, kind, i) && j < c.stride
    ensures Blend(c, kind, i, c.times[i - 1], j) == c.Sample(i - 1, j)
  {
    hide Keys.Sample, CubicBlend, WeightPrev, WeightNext;
    var v0, v1 := c.Sample(i - 1, j), c.Sample(i, j);
    assert (c.times[i - 1] - c.times[i - 1]) / (c.times[i] - c.times[i - 1]) == 0.0;
    match kind {
      case Cubic(start, end) =>
        CubicStarts(WeightPrev(c, start, i), WeightNext(c, end, i),
                    c.Sample(IndexPrev(c, start, i), j), v0, v1, c.Sample(IndexNext(c, end, i), j));
      case _ =>
    }
  }

  // Whatever the kind, where there is a value the curve goes through the samples; of keys
  // that share a time, through the last.
  lemma CurveHitsKeys(c: Keys, kind: Kind, k: nat, j: nat)
    requires c.Valid() && k < |c.times| && j < c.stride
    requires Numeric(c, kind, c.times[k]) && (k + 1 < |c.times| ==> c.times[k] < c.times[k + 1])
    ensures Value(c, kind, c.times[k], j) == c.Sample(k, j)
  {
    hide Blend, Keys.Sample;
    CountedAt(c, c.times[k], k + 1);
    if k + 1 < |c.times| {
      BlendStarts(c, kind, k + 1, j);
    }
  }

  // Between two keys a discrete curve rests at the earlier sample.
  lemma DiscreteHolds(c: Keys, t: real, k: nat, j: nat)
    requires c.Valid() && j < c.stride && k + 1 < |c.times| && c.times[k] <= t < c.times[k + 1]
    ensures Value(c, Discrete, t, j) == c.Sample(k, j)
  {
    hide Keys.Sample, KeysUpTo;
    CountedAt(c, t, k + 1);
  }

  lemma MixIsStraight(a: real, b: real, x: real, d: real)
    requires d > 0.0
    ensures (a * (1.0 - x / d) + b * (x / d) - a) * d == (b - a) * x
  {
    var p := x / d;
    assert p * d == x;
    assert a * (1.0 - p) + b * p - a == (b - a) * p;
    assert (b - a) * p * d == (b - a) * (p * d);
  }

  // A linear curve rises in proportion to the time since the earlier key.
  lemma LinearIsStraight(c: Keys, t: real, k: nat, j: nat)
    requires c.Valid() && j < c.stride && k + 1 < |c.times| && c.times[k] <= t < c.times[k + 1]
    ensures (Value(c, Linear, t, j) - c.Sample(k, j)) * (c.times[k + 1] - c.times[k])
         == (c.Sample(k + 1, j) - c.Sample(k, j)) * (t - c.times[k])
  {
    hide Keys.Sample, KeysUpTo;
    CountedAt(c, t, k + 1);
    MixIsStraight(c.Sample(k, j), c.Sample(k + 1, j), t - c.times[k], c.times[k + 1] - c.times[k]);
  }

  lemma MixStaysBetween(a: real, b: real, x: real, d: real)
    requires 0.0 <= x < d
    ensures var v := a * (1.0 - x / d) + b * (x / d);
            (if a <= b then a <= v <= b else b <= v <= a)
  {
    var p := x / d;
    assert p * d == x;
    assert 0.0 <= p <= 1.0;
    assert a * (1.0 - p) + b * p == a + (b - a) * p == b - (b - a) * (1.0 - p);
  }

  // Between two keys a linear curve stays between their samples.
  lemma LinearStaysBetween(c: Keys, t: real, j: nat)
    requires c.Valid() && j < c.stride && 0 < KeysUpTo(c.times, t) < |c.times|
    ensures var i := KeysUpTo(c.times, t);
            var a, b, v := c.Sample(i - 1, j), c.Sample(i, j), Value(c, Linear, t, j);
            (if a <= b then a <= v <= b else b <= v <= a)
  {
    hide Keys.Sample, KeysUpTo;
    var i := KeysUpTo(c.times, t);
    KeysUpToSplits(c.times, t);
    MixStaysBetween(c.Sample(i - 1, j), c.Sample(i, j), t - c.times[i - 1], c.times[i] - c.times[i - 1]);
  }

  // ---------------------------------------------------------------- the cubic pieces

  function HermiteForm(v0: real, v1: real, m0: real, m1: real, p: real, pp: real, ppp: real): real {
    (2.0 * ppp - 3.0 * pp + 1.0) * v0 + (ppp - 2.0 * pp + p) * m0 + (3.0 * pp - 2.0 * ppp) * v1 + (ppp - pp) * m1
  }

  // The cubic through v0 and v1 with slopes m0 and m1 there, for p from 0 to 1.
  function Hermite(v0: real, v1: real, m0: real, m1: real, p: real): real {
    var pp := p * p;
    HermiteForm(v0, v1, m0, m1, p, pp, pp * p)
  }

  // That is what it is: near 0 it leaves v0 along m0, near 1 it comes into v1 along m1, up
  // to a second-order rest.
  lemma HermiteTouches(v0: real, v1: real, m0: real, m1: real, p: real)
    ensures Hermite(v0, v1, m0, m1, p)
         == v0 + m0 * p + p * p * (3.0 * (v1 - v0) - 2.0 * m0 - m1 + p * (2.0 * (v0 - v1) + m0 + m1))
    ensures var q := 1.0 - p;
            Hermite(v0, v1, m0, m1, p)
              == v1 - m1 * q + q * q * (3.0 * (v0 - v1) + 2.0 * m1 + m0 + q * (2.0 * (v1 - v0) - m0 - m1))
  {
  }

  // The slope from key k - 1 to key k.
  function Secant(c: Keys, k: nat, j: nat): real
    requires c.Valid() && 0 < k < |c.times| && c.times[k - 1] < c.times[k] && j < c.stride
  {
    (c.Sample(k, j) - c.Sample(k - 1, j)) / (c.times[k] - c.times[k - 1])
  }

  function Mean(a: real, b: real): real {
    (a + b) / 2.0
  }

  // The slope of the curve at key k divides by these distances.
  predicate HasTangent(c: Keys, start: Ending, end: Ending, k: nat)
    requires |c.times| >= 2 && k < |c.times|
  {
    var last := |c.times| - 1;
    if k == 0 then
      && (!start.ZeroSlope? ==> c.times[0] < c.times[1])
      && (start.WrapAround? ==> c.times[last - 1] < c.times[last])
    else if k == last then
      && c.times[last - 1] < c.times[last]
      && (end.WrapAround? ==> c.times[0] < c.times[1])
    else c.times[k - 1] < c.times[k] < c.times[k + 1]
  }

  // The slope of the curve at key k: inside, the mean of the slopes on both sides.
  function Tangent(c: Keys, start: Ending, end: Ending, k: nat, j: nat): real
    requires c.Valid() && |c.times| >= 2 && k < |c.times| && HasTangent(c, start, end, k) && j < c.stride
  {
    var last := |c.times| - 1;
    if k == 0 then
      match start
      case ZeroCurvature => Secant(c, 1, j)
      case ZeroSlope => 0.0
      case WrapAround => Mean((c.Sample(0, j) - c.Sample(last - 1, j)) / (c.times[last] - c.times[last - 1]),
                              Secant(c, 1, j))
    else if k == last then
      match end
      case ZeroCurvature => Secant(c, last, j)
      case ZeroSlope => Secant(c, last, j) / 2.0
      case WrapAround => Mean(Secant(c, last, j), (c.Sample(1, j) - c.Sample(last, j)) / (c.times[1] - c.times[0]))
    else Mean(Secant(c, k, j), Secant(c, k + 1, j))
  }

  lemma HermiteIs(v0: real, v1: real, m0: real, m1: real, p: real, pp: real, ppp: real)
    requires pp == p * p && ppp == pp * p
    ensures Hermite(v0, v1, m0, m1, p) == HermiteForm(v0, v1, m0, m1, p, pp, ppp)
  {
  }

  function SlopeIn(wP: real, vP: real, v0: real, v1: real): real {
    wP * (v0 - vP) + 0.5 * (v1 - v0)
  }

  function SlopeOut(wN: real, v0: real, v1: real, vN: real): real {
    wN * (vN - v1) + 0.5 * (v1 - v0)
  }

  lemma FormsAgree(wP: real, wN: real, p: real, pp: real, ppp: real, vP: real, v0: real, v1: real, vN: real)
    ensures Mix(Coefficients(wP, wN, p, pp, ppp), vP, v0, v1, vN) ==
            HermiteForm(v0, v1, SlopeIn(wP, vP, v0, v1), SlopeOut(wN, v0, v1, vN), p, pp, ppp)
  {
  }

  lemma BlendIsHermite(wP: real, wN: real, p: real, vP: real, v0: real, v1: real, vN: real)
    ensures CubicBlend(wP, wN, p, vP, v0, v1, vN) ==
            Hermite(v0, v1, SlopeIn(wP, vP, v0, v1), SlopeOut(wN, v0, v1, vN), p)
  {
    hide Mix, Coefficients, CubicBlend, Hermite, HermiteForm, SlopeIn, SlopeOut;
    var pp := p * p;
    CubicBlendIs(wP, wN, p, pp, pp * p, vP, v0, v1, vN);
    HermiteIs(v0, v1, SlopeIn(wP, vP, v0, v1), SlopeOut(wN, v0, v1, vN), p, pp, pp * p);
    FormsAgree(wP, wN, p, pp, pp * p, vP, v0, v1, vN);
  }

  // The slope on the far side of an interval's keys, made up past the ends.
  function FarPrev(c: Keys, start: Ending, i: nat, j: nat): real
    requires c.Valid() && 0 < i < |c.times| && GapPrev(c, start, i) != 0.0 && j < c.stride
  {
    (c.Sample(i - 1, j) - c.Sample(IndexPrev(c, start, i), j)) / GapPrev(c, start, i)
  }

  // The neighbours made up past an end: the other key at the same or the opposite distance.
  lemma Turned(v0: real, v1: real, d: real, g: real)
    requires d > 0.0
    ensures g == -d ==> Mean((v0 - v1) / g, (v1 - v0) / d) == (v1 - v0) / d
    ensures g == -d ==> Mean((v1 - v0) / d, (v0 - v1) / g) == (v1 - v0) / d
    ensures g == d ==> Mean((v0 - v1) / g, (v1 - v0) / d) == 0.0
    ensures g == d ==> Mean((v1 - v0) / d, (v1 - v1) / g) == (v1 - v0) / d / 2.0
  {
    var s := (v1 - v0) / d;
    assert s * d == v1 - v0;
    if g == -d {
      var q := (v0 - v1) / g;
      assert q * g == v0 - v1;
      assert (q - s) * d == 0.0;
    } else if g == d {
      var q := (v0 - v1) / d;
      assert q * d == v0 - v1;
      assert (q + s) * d == 0.0;
    }
  }

  lemma TangentFromPrev(c: Keys, start: Ending, end: Ending, i: nat, j: nat)
    requires c.Valid() && 0 < i < |c.times| && c.times[i - 1] < c.times[i]
    requires GapPrev(c, start, i) != 0.0 && j < c.stride
    ensures HasTangent(c, start, end, i - 1)
    ensures Tangent(c, start, end, i - 1, j) == Mean(FarPrev(c, start, i, j), Secant(c, i, j))
  {
    hide Keys.Sample, Mean;
    Turned(c.Sample(i - 1, j), c.Sample(i, j), c.times[i] - c.times[i - 1], GapPrev(c, start, i));
  }

  lemma HalfOf(d: real, g: real, x: real)
    requires g != 0.0
    ensures d * 0.5 / g * x == d * (x / g) / 2.0
  {
    var w, q := d * 0.5 / g, x / g;
    assert w * g == d * 0.5 && q * g == x;
    assert w * (q * g) == (w * g) * q;
  }

  lemma Spread(d: real, a: real, b: real)
    ensures d * Mean(a, b) == d * a / 2.0 + d * b / 2.0
  {
  }

  lemma SlopeInIs(d: real, g: real, vP: real, v0: real, v1: real)
    requires d > 0.0 && g != 0.0
    ensures SlopeIn(d * 0.5 / g, vP, v0, v1) == d * Mean((v0 - vP) / g, (v1 - v0) / d)
  {
    HalfOf(d, g, v0 - vP);
    HalfOf(d, d, v1 - v0);
    Spread(d, (v0 - vP) / g, (v1 - v0) / d);
  }

  lemma StartTangent(c: Keys, start: Ending, end: Ending, i: nat, j: nat)
    requires c.Valid() && 0 < i < |c.times| && c.times[i - 1] < c.times[i]
    requires GapPrev(c, start, i) != 0.0 && j < c.stride
    ensures HasTangent(c, start, end, i - 1)
    ensures SlopeIn(WeightPrev(c, start, i), c.Sample(IndexPrev(c, start, i), j), c.Sample(i - 1, j), c.Sample(i, j)) ==
            (c.times[i] - c.times[i - 1]) * Tangent(c, start, end, i - 1, j)
  {
    hide Keys.Sample, SlopeIn, Mean, IndexPrev, GapPrev, Tangent;
    var d, g := c.times[i] - c.times[i - 1], GapPrev(c, start, i);
    SlopeInIs(d, g, c.Sample(IndexPrev(c, start, i), j), c.Sample(i - 1, j), c.Sample(i, j));
    TangentFromPrev(c, start, end, i, j);
  }

  function FarNext(c: Keys, end: Ending, i: nat, j: nat): real
    requires c.Valid() && 0 < i < |c.times| && GapNext(c, end, i) != 0.0 && j < c.stride
  {
    (c.Sample(IndexNext(c, end, i), j) - c.Sample(i, j)) / GapNext(c, end, i)
  }

  lemma TangentFromNext(c: Keys, start: Ending, end: Ending, i: nat, j: nat)
    requires c.Valid() && 0 < i < |c.times| && c.times[i - 1] < c.times[i] && GapNext(c, end, i) != 0.0 && j < c.stride
    ensures HasTangent(c, start, end, i)
    ensures Tangent(c, start, end, i, j) == Mean(Secant(c, i, j), FarNext(c, end, i, j))
  {
    hide Keys.Sample, Mean;
    Turned(c.Sample(i - 1, j), c.Sample(i, j), c.times[i] - c.times[i - 1], GapNext(c, end, i));
  }

  lemma SlopeOutIs(d: real, g: real, v0: real, v1: real, vN: real)
    requires d > 0.0 && g != 0.0
    ensures SlopeOut(d * 0.5 / g, v0, v1, vN) == d * Mean((v1 - v0) / d, (vN - v1) / g)
  {
    HalfOf(d, g, vN - v1);
    HalfOf(d, d, v1 - v0);
    Spread(d, (v1 - v0) / d, (vN - v1) / g);
  }

  lemma EndTangent(c: Keys, start: Ending, end: Ending, i: nat, j: nat)
    requires c.Valid() && 0 < i < |c.times| && c.times[i - 1] < c.times[i] && GapNext(c, end, i) != 0.0 && j < c.stride
    ensures HasTangent(c, start, end, i)
    ensures SlopeOut(WeightNext(c, end, i), c.Sample(i - 1, j), c.Sample(i, j), c.Sample(IndexNext(c, end, i), j)) ==
            (c.times[i] - c.times[i - 1]) * Tangent(c, start, end, i, j)
  {
    hide Keys.Sample, SlopeOut, Mean, IndexNext, GapNext, Tangent;
    var d, g := c.times[i] - c.times[i - 1], GapNext(c, end, i);
    SlopeOutIs(d, g, c.Sample(i - 1, j), c.Sample(i, j), c.Sample(IndexNext(c, end, i), j));
    TangentFromNext(c, start, end, i, j);
  }

  // Every cubic piece is the Hermite cubic with those tangents at its two keys, so that
  // neighbouring pieces meet with one value and one slope.
  lemma CubicIsHermite(c: Keys, start: Ending, end: Ending, i: nat, t: real, j: nat)
    requires c.Valid() && 0 < i < |c.times| && c.times[i - 1] < c.times[i] && j < c.stride
    requires KeysDiffer(c, Cubic(start, end), i)
    ensures HasTangent(c, start, end, i - 1) && HasTangent(c, start, end, i)
    ensures var d := c.times[i] - c.times[i - 1];
            d > 0.0 &&
            Blend(c, Cubic(start, end), i, t, j) ==
            Hermite(c.Sample(i - 1, j), c.Sample(i, j),
                    d * Tangent(c, start, end, i - 1, j), d * Tangent(c, start, end, i, j), (t - c.times[i - 1]) / d)
  {
    hide Keys.Sample, CubicBlend, Hermite, WeightPrev, WeightNext, Tangent, IndexPrev, IndexNext;
    var v0, v1 := c.Sample(i - 1, j), c.Sample(i, j);
    var vP, vN := c.Sample(IndexPrev(c, start, i), j), c.Sample(IndexNext(c, end, i), j);
    var p := (t - c.times[i - 1]) / (c.times[i] - c.times[i - 1]);
    BlendIsHermite(WeightPrev(c, start, i), WeightNext(c, end, i), p, vP, v0, v1, vN);
    StartTangent(c, start, end, i, j);
    EndTangent(c, start, end, i, j);
  }

  // With both ends wrapping around, a track that ends on its first sample closes smoothly.
  lemma WrapAroundCloses(c: Keys, j: nat)
    requires c.Valid() && |c.times| >= 2 && j < c.stride
    requires HasTangent(c, WrapAround, WrapAround, 0) && HasTangent(c, WrapAround, WrapAround, |c.times| - 1)
    requires c.Sample(0, j) == c.Sample(|c.times| - 1, j)
    ensures Tangent(c, WrapAround, WrapAround, 0, j) == Tangent(c, WrapAround, WrapAround, |c.times| - 1, j)
  {
    hide Keys.Sample;
  }

  // ZeroSlope holds the curve level at its first key but not at its last: there half the
  // last slope is left, so it is level only if the last two samples are equal.
  lemma ZeroSlopeAtTheEnd(c: Keys, j: nat)
    requires c.Valid() && |c.times| >= 2 && HasTangent(c, ZeroSlope, ZeroSlope, |c.times| - 1) && j < c.stride
    ensures Tangent(c, ZeroSlope, ZeroSlope, 0, j) == 0.0
    ensures Tangent(c, ZeroSlope, ZeroSlope, |c.times| - 1, j) == 0.0 <==>
            c.Sample(|c.times| - 1, j) == c.Sample(|c.times| - 2, j)
  {
    hide Keys.Sample;
    var last := |c.times| - 1;
    var x, d := c.Sample(last, j) - c.Sample(last - 1, j), c.times[last] - c.times[last - 1];
    assert x / d * d == x;
  }
}
