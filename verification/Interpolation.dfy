// Keyframe interpolants: find the interval a time falls in, starting from the one used
// last, and blend the samples around it.
module Interpolation {
  datatype Ending = ZeroCurvature | ZeroSlope | WrapAround

  datatype Kind = Discrete | Linear | Cubic(start: Ending, end: Ending)

  // Reading an array outside its bounds gives undefined, which no comparison accepts.
  datatype Entry = Undefined | Number(value: real)

  function At(times: seq<real>, k: int): Entry {
    if 0 <= k < |times| then Number(times[k]) else Undefined
  }

  predicate Before(t: real, e: Entry) {
    e.Number? && t < e.value
  }

  predicate NotBefore(t: real, e: Entry) {
    e.Number? && t >= e.value
  }

  // Numbers with what a zero divisor leads to. The divisors that can vanish here are
  // differences of equal times, which are plus zero.
  datatype Num = Real(r: real) | PosInf | NegInf | NaN

  function Over(n: real, d: real): Num {
    if d != 0.0 then Real(n / d) else if n > 0.0 then PosInf else if n < 0.0 then NegInf else NaN
  }

  function Neg(a: Num): Num {
    match a
    case Real(r) => Real(-r)
    case PosInf => NegInf
    case NegInf => PosInf
    case NaN => NaN
  }

  function Plus(a: Num, b: Num): Num {
    if a.NaN? || b.NaN? then NaN
    else if a.Real? && b.Real? then Real(a.r + b.r)
    else if a.Real? then b
    else if b.Real? || a == b then a
    else NaN
  }

  function Minus(a: Num, b: Num): Num {
    Plus(a, Neg(b))
  }

  predicate Negative(a: Num) {
    a.NegInf? || (a.Real? && a.r < 0.0)
  }

  function Times(a: Num, b: Num): Num {
    if a.NaN? || b.NaN? then NaN
    else if a.Real? && b.Real? then Real(a.r * b.r)
    else if a == Real(0.0) || b == Real(0.0) then NaN
    else if Negative(a) == Negative(b) then PosInf
    else NegInf
  }

  ghost predicate Ordered(times: seq<real>) {
    forall j, k :: 0 <= j < k < |times| ==> times[j] <= times[k]
  }

  lemma RowInside(k: nat, n: nat, stride: nat)
    requires k < n
    ensures 0 <= k * stride <= k * stride + stride <= n * stride
  {
    assert (k + 1) * stride <= n * stride;
  }

  // Key times and their samples, stride numbers to a key.
  datatype Keys = Keys(times: seq<real>, values: seq<real>, stride: nat) {
    ghost predicate Shaped() {
      |times| > 0 && |values| == |times| * stride
    }

    ghost predicate Valid() {
      Shaped() && Ordered(times)
    }

    ghost predicate Strict() {
      forall j, k :: 0 <= j < k < |times| ==> times[j] < times[k]
    }

    // Component j of the sample at key k.
    function Sample(k: nat, j: nat): real
      requires Shaped() && k < |times| && j < stride
    {
      RowInside(k, |times|, stride);
      values[k * stride + j]
    }
  }

  // ------------------------------------------------------------------ what is meant

  // How many keys are at or before t.
  ghost function KeysUpTo(times: seq<real>, t: real): (n: nat)
    ensures n <= |times|
  {
    if times == [] then 0
    else KeysUpTo(times[..|times| - 1], t) + if times[|times| - 1] <= t then 1 else 0
  }

  lemma {:induction false} KeysUpToIs(times: seq<real>, t: real, i: nat)
    requires i <= |times|
    requires forall k :: 0 <= k < i ==> times[k] <= t
    requires forall k :: i <= k < |times| ==> t < times[k]
    ensures KeysUpTo(times, t) == i
  {
    if times != [] {
      KeysUpToIs(times[..|times| - 1], t, if i == |times| then i - 1 else i);
    }
  }

  // On ordered keys the count splits them.
  lemma {:induction false} KeysUpToSplits(times: seq<real>, t: real)
    requires Ordered(times)
    ensures forall k :: 0 <= k < |times| ==> (times[k] <= t <==> k < KeysUpTo(times, t))
  {
    if times != [] {
      var n := |times| - 1;
      KeysUpToSplits(times[..n], t);
      assert forall k :: 0 <= k < n ==> times[..n][k] == times[k];
      assert forall k :: 0 <= k < n ==> times[k] <= times[n];
    }
  }

  lemma CountedAt(c: Keys, t: real, i: nat)
    requires c.Valid() && i <= |c.times|
    requires i > 0 ==> c.times[i - 1] <= t
    requires i < |c.times| ==> t < c.times[i]
    ensures KeysUpTo(c.times, t) == i
  {
    KeysUpToIs(c.times, t, i);
  }

  // The neighbour before interval i and its distance; past the ends, what the ending says.
  function IndexPrev(c: Keys, start: Ending, i: nat): (k: nat)
    requires 0 < i < |c.times|
    ensures k < |c.times|
  {
    if i >= 2 then i - 2
    else if start == WrapAround then |c.times| - 2
    else i
  }

  function IndexNext(c: Keys, end: Ending, i: nat): (k: nat)
    requires 0 < i < |c.times|
    ensures k < |c.times|
  {
    if i + 1 < |c.times| then i + 1
    else match end
      case ZeroSlope => i
      case WrapAround => 1
      case ZeroCurvature => i - 1
  }

  function GapPrev(c: Keys, start: Ending, i: nat): (d: real)
    requires 0 < i < |c.times|
    ensures c.Strict() ==> d != 0.0
  {
    if i >= 2 then c.times[i - 1] - c.times[i - 2]
    else match start
      case ZeroSlope => c.times[1] - c.times[0]
      case WrapAround => c.times[|c.times| - 1] - c.times[|c.times| - 2]
      case ZeroCurvature => c.times[0] - c.times[1]
  }

  function GapNext(c: Keys, end: Ending, i: nat): (d: real)
    requires 0 < i < |c.times|
    ensures c.Strict() ==> d != 0.0
  {
    if i + 1 < |c.times| then c.times[i + 1] - c.times[i]
    else match end
      case ZeroSlope => c.times[i] - c.times[i - 1]
      case WrapAround => c.times[1] - c.times[0]
      case ZeroCurvature => c.times[i - 1] - c.times[i]
  }

  // A cubic blend around interval i divides by these two distances.
  predicate KeysDiffer(c: Keys, kind: Kind, i: nat)
    requires 0 < i < |c.times|
  {
    kind.Cubic? ==> GapPrev(c, kind.start, i) != 0.0 && GapNext(c, kind.end, i) != 0.0
  }

  // Which neighbouring keys must differ for that: those before and after the interval, and
  // past an end that wraps around the two at the other end.
  lemma KeysDifferIff(c: Keys, start: Ending, end: Ending, i: nat)
    requires c.Valid() && 0 < i < |c.times| && c.times[i - 1] < c.times[i]
    ensures var n := |c.times|;
            KeysDiffer(c, Cubic(start, end), i) <==>
              && (i >= 2 ==> c.times[i - 2] < c.times[i - 1])
              && (i == 1 && start.WrapAround? ==> c.times[n - 2] < c.times[n - 1])
              && (i + 1 < n ==> c.times[i] < c.times[i + 1])
              && (i + 1 == n && end.WrapAround? ==> c.times[0] < c.times[1])
  {
  }

  // There is a value at t: outside the keys always, inside if the blend divides by no zero.
  ghost predicate Numeric(c: Keys, kind: Kind, t: real) {
    var i := KeysUpTo(c.times, t);
    0 < i < |c.times| ==> KeysDiffer(c, kind, i)
  }

  // The four coefficients, from the two weights and the powers of p.
  datatype Four = Four(sP: real, s0: real, s1: real, sN: real)

  function Coefficients(wP: real, wN: real, p: real, pp: real, ppp: real): Four {
    Four(-wP * ppp + 2.0 * wP * pp - wP * p,
         (1.0 + wP) * ppp + (-1.5 - 2.0 * wP) * pp + (-0.5 + wP) * p + 1.0,
         (-1.0 - wN) * ppp + (1.5 + wN) * pp + 0.5 * p,
         wN * ppp - wN * pp)
  }

  function Mix(f: Four, vP: real, v0: real, v1: real, vN: real): real {
    f.sP * vP + f.s0 * v0 + f.s1 * v1 + f.sN * vN
  }

  function Square(p: real): real { p * p }

  function Cube(p: real): real { Square(p) * p }

  function CubicBlend(wP: real, wN: real, p: real, vP: real, v0: real, v1: real, vN: real): real {
    Mix(Coefficients(wP, wN, p, Square(p), Cube(p)), vP, v0, v1, vN)
  }

  function HalfGap(c: Keys, i: nat): real
    requires 0 < i < |c.times|
  {
    (c.times[i] - c.times[i - 1]) * 0.5
  }

  function WeightPrev(c: Keys, start: Ending, i: nat): real
    requires 0 < i < |c.times| && GapPrev(c, start, i) != 0.0
  {
    HalfGap(c, i) / GapPrev(c, start, i)
  }

  function WeightNext(c: Keys, end: Ending, i: nat): real
    requires 0 < i < |c.times| && GapNext(c, end, i) != 0.0
  {
    HalfGap(c, i) / GapNext(c, end, i)
  }

  function Blend(c: Keys, kind: Kind, i: nat, t: real, j: nat): real
    requires c.Valid() && j < c.stride && 0 < i < |c.times| && c.times[i - 1] < c.times[i] && KeysDiffer(c, kind, i)
  {
    var p := (t - c.times[i - 1]) / (c.times[i] - c.times[i - 1]);
    match kind
    case Discrete => c.Sample(i - 1, j)
    case Linear => c.Sample(i - 1, j) * (1.0 - p) + c.Sample(i, j) * p
    case Cubic(start, end) =>
      CubicBlend(WeightPrev(c, start, i), WeightNext(c, end, i), p,
                 c.Sample(IndexPrev(c, start, i), j), c.Sample(i - 1, j), c.Sample(i, j),
                 c.Sample(IndexNext(c, end, i), j))
  }

  // Component j of the value at time t: the first sample before all keys, the last one
  // after all keys, and in between a blend around the interval that holds t.
  ghost function Value(c: Keys, kind: Kind, t: real, j: nat): real
    requires c.Valid() && Numeric(c, kind, t) && j < c.stride
  {
    var i := KeysUpTo(c.times, t);
    if i == 0 then c.Sample(0, j)
    else if i == |c.times| then c.Sample(i - 1, j)
    else
      KeysUpToSplits(c.times, t);
      Blend(c, kind, i, t, j)
  }

  // What an interpolant reports.
  ghost function Outcome(c: Keys, kind: Kind, t: real, j: nat): Num
    requires c.Valid() && j < c.stride
  {
    if Numeric(c, kind, t) then Real(Value(c, kind, t, j)) else NaN
  }

  // The same coefficients and their blend, as computed with weights that may be infinite.
  datatype NumFour = NumFour(sP: Num, s0: Num, s1: Num, sN: Num)

  function NumPrev(wP: Num, p: real, pp: real, ppp: real): Num {
    Minus(Plus(Times(Neg(wP), Real(ppp)), Times(Times(Real(2.0), wP), Real(pp))), Times(wP, Real(p)))
  }

  function NumStart(wP: Num, p: real, pp: real, ppp: real): Num {
    Plus(Plus(Plus(Times(Plus(Real(1.0), wP), Real(ppp)), Times(Minus(Real(-1.5), Times(Real(2.0), wP)), Real(pp))),
              Times(Plus(Real(-0.5), wP), Real(p))), Real(1.0))
  }

  function NumEnd(wN: Num, p: real, pp: real, ppp: real): Num {
    Plus(Plus(Times(Minus(Real(-1.0), wN), Real(ppp)), Times(Plus(Real(1.5), wN), Real(pp))), Real(0.5 * p))
  }

  function NumNext(wN: Num, pp: real, ppp: real): Num {
    Minus(Times(wN, Real(ppp)), Times(wN, Real(pp)))
  }

  function NumCoefficients(wP: Num, wN: Num, p: real, pp: real, ppp: real): NumFour {
    NumFour(NumPrev(wP, p, pp, ppp), NumStart(wP, p, pp, ppp), NumEnd(wN, p, pp, ppp), NumNext(wN, pp, ppp))
  }

  function NumMix(f: NumFour, vP: real, v0: real, v1: real, vN: real): Num {
    Plus(Plus(Plus(Times(f.sP, Real(vP)), Times(f.s0, Real(v0))), Times(f.s1, Real(v1))), Times(f.sN, Real(vN)))
  }

  lemma RealMix(f: Four, vP: real, v0: real, v1: real, vN: real)
    ensures NumMix(NumFour(Real(f.sP), Real(f.s0), Real(f.s1), Real(f.sN)), vP, v0, v1, vN)
         == Real(Mix(f, vP, v0, v1, vN))
  {
  }

  lemma RealPrev(wP: real, p: real, pp: real, ppp: real)
    ensures NumPrev(Real(wP), p, pp, ppp) == Real(-wP * ppp + 2.0 * wP * pp - wP * p)
  {
  }

  lemma RealStart(wP: real, p: real, pp: real, ppp: real)
    ensures NumStart(Real(wP), p, pp, ppp)
         == Real((1.0 + wP) * ppp + (-1.5 - 2.0 * wP) * pp + (-0.5 + wP) * p + 1.0)
  {
    assert -1.5 + -(2.0 * wP) == -1.5 - 2.0 * wP;
  }

  lemma RealEnd(wN: real, p: real, pp: real, ppp: real)
    ensures NumEnd(Real(wN), p, pp, ppp) == Real((-1.0 - wN) * ppp + (1.5 + wN) * pp + 0.5 * p)
  {
    assert -1.0 + -wN == -1.0 - wN;
  }

  lemma RealNext(wN: real, pp: real, ppp: real)
    ensures NumNext(Real(wN), pp, ppp) == Real(wN * ppp - wN * pp)
  {
  }

  // With real weights that is the real blend.
  lemma RealBlend(wP: real, wN: real, p: real, pp: real, ppp: real, vP: real, v0: real, v1: real, vN: real)
    ensures NumMix(NumCoefficients(Real(wP), Real(wN), p, pp, ppp), vP, v0, v1, vN)
         == Real(Mix(Coefficients(wP, wN, p, pp, ppp), vP, v0, v1, vN))
  {
    RealPrev(wP, p, pp, ppp);
    RealStart(wP, p, pp, ppp);
    RealEnd(wN, p, pp, ppp);
    RealNext(wN, pp, ppp);
    RealMix(Coefficients(wP, wN, p, pp, ppp), vP, v0, v1, vN);
    hide NumPrev, NumStart, NumEnd, NumNext, NumMix, Mix;
  }

  lemma InfinitePrev(p: real, pp: real, ppp: real)
    requires p == pp == ppp == 0.0 || (p > 0.0 && pp > 0.0 && ppp > 0.0)
    ensures NumPrev(PosInf, p, pp, ppp) == NaN
  {
  }

  lemma InfiniteNext(pp: real, ppp: real)
    requires pp == ppp == 0.0 || (pp > 0.0 && ppp > 0.0)
    ensures NumNext(PosInf, pp, ppp) == NaN
  {
  }

  // An infinite weight spoils the blend wherever in the interval it is taken.
  lemma InfiniteBlend(wP: Num, wN: Num, p: real, pp: real, ppp: real, vP: real, v0: real, v1: real, vN: real)
    requires wP.PosInf? || wN.PosInf?
    requires p == pp == ppp == 0.0 || (p > 0.0 && pp > 0.0 && ppp > 0.0)
    ensures NumMix(NumCoefficients(wP, wN, p, pp, ppp), vP, v0, v1, vN) == NaN
  {
    InfinitePrev(p, pp, ppp);
    InfiniteNext(pp, ppp);
    hide NumPrev, NumStart, NumEnd, NumNext;
  }

  lemma ProductPositive(a: real, b: real, c: real)
    requires a > 0.0 && b > 0.0 && c == a * b
    ensures c > 0.0
  {
  }

  lemma PowersOf(p: real)
    requires 0.0 <= p
    ensures p == Square(p) == Cube(p) == 0.0 || (p > 0.0 && Square(p) > 0.0 && Cube(p) > 0.0)
  {
    if p > 0.0 {
      ProductPositive(p, p, Square(p));
      ProductPositive(Square(p), p, Cube(p));
    }
  }

  // ------------------------------------------------------------------- the objects

  // How a linear scan ends: at the interval, with a range left to bisect, or it was the
  // wrong direction.
  datatype Scan = Settled | Unsettled(right: nat) | Declined

  lemma OffsetInside(i: nat, stride: nat)
    requires 0 < i
    ensures i * stride >= stride
  {
  }

  lemma DiscreteBlend(c: Keys, i: nat, t: real, j: nat)
    requires c.Valid() && j < c.stride && 0 < i < |c.times| && c.times[i - 1] < c.times[i]
    ensures Blend(c, Discrete, i, t, j) == c.Sample(i - 1, j)
  {
  }

  lemma LinearSlots(c: Keys, i1: nat, t: real, j: nat)
    requires c.Valid() && j < c.stride && 0 < i1 < |c.times| && c.times[i1 - 1] < c.times[i1]
    ensures var o1 := i1 * c.stride;
            var p := (t - c.times[i1 - 1]) / (c.times[i1] - c.times[i1 - 1]);
            && 0 <= o1 - c.stride && o1 + j < |c.values|
            && Blend(c, Linear, i1, t, j) == c.values[o1 - c.stride + j] * (1.0 - p) + c.values[o1 + j] * p
  {
    RowInside(i1, |c.times|, c.stride);
    RowInside(i1 - 1, |c.times|, c.stride);
  }

  // The places of the four samples of a cubic blend in the flat array.
  lemma CubicSlots(c: Keys, kind: Kind, i1: nat, j: nat)
    requires c.Valid() && kind.Cubic? && j < c.stride && 0 < i1 < |c.times|
    ensures var oP, oN := IndexPrev(c, kind.start, i1) * c.stride, IndexNext(c, kind.end, i1) * c.stride;
            var o1 := i1 * c.stride;
            && 0 <= oP && oP + j < |c.values| && 0 <= oN && oN + j < |c.values|
            && 0 <= o1 - c.stride && o1 + j < |c.values|
            && c.values[oP + j] == c.Sample(IndexPrev(c, kind.start, i1), j)
            && c.values[o1 - c.stride + j] == c.Sample(i1 - 1, j) && c.values[o1 + j] == c.Sample(i1, j)
            && c.values[oN + j] == c.Sample(IndexNext(c, kind.end, i1), j)
  {
    hide IndexPrev, IndexNext;
    RowInside(i1, |c.times|, c.stride);
    RowInside(i1 - 1, |c.times|, c.stride);
    RowInside(IndexPrev(c, kind.start, i1), |c.times|, c.stride);
    RowInside(IndexNext(c, kind.end, i1), |c.times|, c.stride);
    assert (i1 - 1) * c.stride == i1 * c.stride - c.stride;
  }

  lemma Share(x: real, d: real)
    requires 0.0 <= x && 0.0 < d
    ensures 0.0 <= x / d
  {
  }

  // The blend of the four samples with the stored weights is the value, if there is one.
  lemma CubicOutcome(c: Keys, kind: Kind, i: nat, t: real, j: nat, p: real)
    requires c.Valid() && kind.Cubic? && j < c.stride && i == KeysUpTo(c.times, t) && 0 < i < |c.times|
    requires c.times[i - 1] <= t < c.times[i] && p == (t - c.times[i - 1]) / (c.times[i] - c.times[i - 1])
    ensures Outcome(c, kind, t, j) ==
            NumMix(NumCoefficients(Over(HalfGap(c, i), GapPrev(c, kind.start, i)),
                                   Over(HalfGap(c, i), GapNext(c, kind.end, i)), p, Square(p), Cube(p)),
                   c.Sample(IndexPrev(c, kind.start, i), j), c.Sample(i - 1, j), c.Sample(i, j),
                   c.Sample(IndexNext(c, kind.end, i), j))
  {
    hide GapPrev, GapNext, IndexPrev, IndexNext, NumMix, NumCoefficients, Mix, Coefficients, KeysUpTo, Keys.Sample;
    hide Square, Cube;
    var vP, v0 := c.Sample(IndexPrev(c, kind.start, i), j), c.Sample(i - 1, j);
    var v1, vN := c.Sample(i, j), c.Sample(IndexNext(c, kind.end, i), j);
    Share(t - c.times[i - 1], c.times[i] - c.times[i - 1]);
    PowersOf(p);
    if KeysDiffer(c, kind, i) {
      RealBlend(WeightPrev(c, kind.start, i), WeightNext(c, kind.end, i), p, Square(p), Cube(p), vP, v0, v1, vN);
    } else {
      InfiniteBlend(Over(HalfGap(c, i), GapPrev(c, kind.start, i)), Over(HalfGap(c, i), GapNext(c, kind.end, i)),
                    p, Square(p), Cube(p), vP, v0, v1, vN);
    }
  }

  class Interpolant {
    const keys: Keys
    const kind: Kind
    const resultBuffer: array<Num>
    var cachedIndex: nat
    var weightPrev: Num
    var weightNext: Num
    var offsetPrev: nat
    var offsetNext: nat

    // Whenever the cache names an inner interval, the stored weights are that interval's.
    ghost predicate Valid()
      reads this
    {
      && Fits() && cachedIndex <= |keys.times|
      && (kind.Cubic? && 0 < cachedIndex < |keys.times| ==> StoredFor(cachedIndex))
    }

    ghost predicate Fits() {
      keys.Valid() && resultBuffer.Length == keys.stride
    }

    ghost predicate StoredFor(i: nat)
      requires kind.Cubic? && 0 < i < |keys.times|
      reads this
    {
      && weightPrev == Over(HalfGap(keys, i), GapPrev(keys, kind.start, i))
      && offsetPrev == IndexPrev(keys, kind.start, i) * keys.stride
      && weightNext == Over(HalfGap(keys, i), GapNext(keys, kind.end, i))
      && offsetNext == IndexNext(keys, kind.end, i) * keys.stride
    }

    constructor (keys: Keys, kind: Kind, resultBuffer: array<Num>)
      requires keys.Valid() && resultBuffer.Length == keys.stride
      ensures Valid() && cachedIndex == 0
      ensures this.keys == keys && this.kind == kind && this.resultBuffer == resultBuffer
    {
      this.keys, this.kind, this.resultBuffer := keys, kind, resultBuffer;
      this.cachedIndex := 0;
      this.weightPrev, this.offsetPrev, this.weightNext, this.offsetNext := Real(0.0), 0, Real(0.0), 0;
    }

    // From any cached index: the interval is the one after all keys at or before t, the
    // cache is left there, and the result is the value at t.
    method Evaluate(t: real)
      requires Valid()
      modifies this, resultBuffer
      ensures Valid() && cachedIndex == KeysUpTo(keys.times, t) && Shows(t)
    {
      hide KeysUpTo, Interpolant.Fits, Interpolant.StoredFor, Interpolant.Shows;
      FitsParts();
      var i1, held := Seek(t);
      if i1 == 0 {
        ReturnFirst(t);
      } else if i1 == |keys.times| {
        ReturnLast(t);
      } else {
        if !held {
          ChangeInterval(i1);
        }
        Interpolate(i1, keys.times[i1 - 1], t, keys.times[i1]);
      }
    }

    // The search: up to two steps forward from the cached index, or up to two back, then
    // bisection of what is left. held says that the cached interval still holds t.
    method Seek(t: real) returns (i1: nat, held: bool)
      requires Valid()
      ensures i1 <= |keys.times| && i1 == KeysUpTo(keys.times, t)
      ensures 0 < i1 < |keys.times| ==> keys.times[i1 - 1] <= t < keys.times[i1]
      ensures held ==> i1 == cachedIndex
    {
      hide KeysUpTo, Keys.Valid, Interpolant.Fits, Interpolant.StoredFor;
      FitsParts();
      var scan;
      i1, held := cachedIndex, false;
      i1, scan := ScanForward(t, i1);
      if scan.Declined? {
        if NotBefore(t, At(keys.times, i1 - 1)) {
          held, scan := true, Settled;
        } else {
          i1, scan := ScanBack(t, i1);
        }
      }
      if scan.Unsettled? {
        i1 := Bisect(t, i1, scan.right);
      }
      CountedAt(keys, t, i1);
    }

    // The keys below i are at or before t, those from j on are after it.
    predicate Encloses(i: nat, j: nat, t: real) {
      && i <= j <= |keys.times|
      && (i > 0 ==> keys.times[i - 1] <= t)
      && (j < |keys.times| ==> t < keys.times[j])
    }

    method ScanForward(t: real, start: nat) returns (i1: nat, scan: Scan)
      requires start <= |keys.times|
      ensures scan.Settled? ==> Encloses(i1, i1, t)
      ensures scan.Unsettled? ==> Encloses(i1, scan.right, t)
      ensures scan.Declined? ==> i1 == start && Declines(t, start)
    {
      var pp := keys.times;
      i1, scan := start, Declined;
      var t1, t0 := At(pp, i1), At(pp, i1 - 1);
      if !Before(t, t1) {
        var giveUpAt := i1 + 2;
        while true
          invariant i1 <= |pp| && i1 <= giveUpAt && t1 == At(pp, i1) && t0 == At(pp, i1 - 1) && !Before(t, t1)
          invariant start <= i1 && (i1 > start ==> NotBefore(t, t0))
          decreases giveUpAt - i1
        {
          if t1 == Undefined {
            if Before(t, t0) {
              return i1, Declined;
            }
            return i1, Settled;
          }
          if i1 == giveUpAt {
            return i1, Unsettled(|pp|);
          }
          t0 := t1;
          i1 := i1 + 1;
          t1 := At(pp, i1);
          if Before(t, t1) {
            return i1, Settled;
          }
        }
      }
    }

    predicate Declines(t: real, i: nat) {
      Before(t, At(keys.times, i)) || (i == |keys.times| && Before(t, At(keys.times, i - 1)))
    }

    method ScanBack(t: real, start: nat) returns (i1: nat, scan: Scan)
      requires 0 < |keys.times| && start <= |keys.times|
      requires Declines(t, start) && !NotBefore(t, At(keys.times, start - 1))
      ensures scan.Settled? ==> Encloses(i1, i1, t)
      ensures scan.Unsettled? ==> Encloses(i1, scan.right, t)
      ensures !scan.Declined?
    {
      var pp := keys.times;
      i1 := start;
      var t1, t0 := At(pp, i1), At(pp, i1 - 1);
      var t1Global := At(pp, 1);
      if Before(t, t1Global) {
        i1 := 2;
        t0 := t1Global;
      }
      var giveUpAt := i1 - 2;
      while true
        invariant i1 <= |pp| && giveUpAt <= i1 && t0 == At(pp, i1 - 1) && !NotBefore(t, t0)
        invariant i1 < giveUpAt + 2 ==> t1 == At(pp, i1) && Before(t, t1)
        invariant i1 == 0 ==> Before(t, At(pp, 0))
        decreases i1 - giveUpAt
      {
        if t0 == Undefined {
          return 0, Settled;
        }
        if i1 == giveUpAt {
          return 0, Unsettled(i1);
        }
        t1 := t0;
        i1 := i1 - 1;
        t0 := At(pp, i1 - 1);
        if NotBefore(t, t0) {
          return i1, Settled;
        }
      }
    }

    method Bisect(t: real, start: nat, end: nat) returns (i1: nat)
      requires Encloses(start, end, t)
      ensures Encloses(i1, i1, t)
    {
      var right: nat := end;
      i1 := start;
      while i1 < right
        invariant Encloses(i1, right, t)
      {
        var mid := (i1 + right) / 2;
        if t < keys.times[mid] {
          right := mid;
        } else {
          i1 := mid + 1;
        }
      }
    }

    method ChangeInterval(i1: nat)
      requires Fits() && 0 < i1 < |keys.times|
      modifies this
      ensures Valid() && cachedIndex == i1
    {
      cachedIndex := i1;
      if kind.Cubic? {
        IntervalChanged(i1, keys.times[i1 - 1], keys.times[i1]);
      }
    }

    // The result buffer holds the value at t, or NaN throughout if there is none.
    ghost predicate Shows(t: real)
      requires Fits()
      reads resultBuffer
    {
      forall j :: 0 <= j < keys.stride ==> resultBuffer[j] == Outcome(keys, kind, t, j)
    }

    method ReturnFirst(t: real)
      requires Fits() && KeysUpTo(keys.times, t) == 0
      modifies this`cachedIndex, resultBuffer
      ensures Valid() && cachedIndex == 0 && Shows(t)
    {
      cachedIndex := 0;
      CopySampleValue(0);
    }

    method ReturnLast(t: real)
      requires Fits() && KeysUpTo(keys.times, t) == |keys.times|
      modifies this`cachedIndex, resultBuffer
      ensures Valid() && cachedIndex == |keys.times| && Shows(t)
    {
      cachedIndex := |keys.times|;
      CopySampleValue(cachedIndex - 1);
    }

    lemma FitsParts()
      requires Fits()
      ensures keys.Valid() && resultBuffer.Length == keys.stride && |keys.times| > 0
    {
    }

    method CopySampleValue(index: nat)
      requires Fits() && index < |keys.times|
      modifies resultBuffer
      ensures forall j :: 0 <= j < keys.stride ==> resultBuffer[j] == Real(keys.Sample(index, j))
    {
      var offset := index * keys.stride;
      for i := 0 to keys.stride
        invariant forall j :: 0 <= j < i ==> resultBuffer[j] == Real(keys.Sample(index, j))
      {
        RowInside(index, |keys.times|, keys.stride);
        resultBuffer[i] := Real(keys.values[offset + i]);
      }
    }

    // intervalChanged_ of the cubic interpolant.
    method IntervalChanged(i1: nat, t0: real, t1: real)
      requires Fits() && kind.Cubic? && 0 < i1 < |keys.times| && t0 == keys.times[i1 - 1] && t1 == keys.times[i1]
      modifies this`weightPrev, this`weightNext, this`offsetPrev, this`offsetNext
      ensures StoredFor(i1)
    {
      hide Keys.Valid;
      var pp := keys.times;
      var iPrev: int, iNext: int := i1 - 2, i1 + 1;
      var tPrev, tNext := At(pp, iPrev), At(pp, iNext);
      if tPrev == Undefined {
        match kind.start {
          case ZeroSlope =>
            iPrev := i1;
            tPrev := Number(2.0 * t0 - t1);
          case WrapAround =>
            iPrev := |pp| - 2;
            tPrev := Number(t0 + pp[iPrev] - pp[iPrev + 1]);
          case ZeroCurvature =>
            iPrev := i1;
            tPrev := Number(t1);
        }
      }
      if tNext == Undefined {
        match kind.end {
          case ZeroSlope =>
            iNext := i1;
            tNext := Number(2.0 * t1 - t0);
          case WrapAround =>
            iNext := 1;
            tNext := Number(t1 + pp[1] - pp[0]);
          case ZeroCurvature =>
            iNext := i1 - 1;
            tNext := Number(t0);
        }
      }
      assert iPrev == IndexPrev(keys, kind.start, i1) && t0 - tPrev.value == GapPrev(keys, kind.start, i1);
      assert iNext == IndexNext(keys, kind.end, i1) && tNext.value - t1 == GapNext(keys, kind.end, i1);
      var halfDt, stride := (t1 - t0) * 0.5, keys.stride;
      weightPrev := Over(halfDt, t0 - tPrev.value);
      weightNext := Over(halfDt, tNext.value - t1);
      offsetPrev := iPrev * stride;
      offsetNext := iNext * stride;
    }

    method Interpolate(i1: nat, t0: real, t: real, t1: real)
      requires Fits() && i1 == KeysUpTo(keys.times, t) && 0 < i1 < |keys.times|
      requires t0 == keys.times[i1 - 1] && t1 == keys.times[i1] && t0 <= t < t1
      requires kind.Cubic? ==> StoredFor(i1)
      modifies resultBuffer
      ensures Shows(t)
    {
      hide Blend, Interpolant.StoredFor, KeysUpTo;
      match kind {
        case Discrete =>
          CopySampleValue(i1 - 1);
          forall j | 0 <= j < keys.stride
            ensures Blend(keys, kind, i1, t, j) == keys.Sample(i1 - 1, j)
          {
            DiscreteBlend(keys, i1, t, j);
          }
        case Linear =>
          InterpolateLinear(i1, t0, t, t1);
        case Cubic(_, _) =>
          InterpolateCubic(i1, t0, t, t1);
      }
    }

    method InterpolateLinear(i1: nat, t0: real, t: real, t1: real)
      requires Fits() && kind.Linear?
      requires 0 < i1 < |keys.times| && t0 == keys.times[i1 - 1] && t1 == keys.times[i1] && t0 < t1
      modifies resultBuffer
      ensures forall j :: 0 <= j < keys.stride ==> resultBuffer[j] == Real(Blend(keys, kind, i1, t, j))
    {
      hide Blend;
      var stride := keys.stride;
      var offset1 := i1 * stride;
      var offset0 := offset1 - stride;
      var weight1 := (t - t0) / (t1 - t0);
      var weight0 := 1.0 - weight1;
      for i := 0 to stride
        invariant forall j :: 0 <= j < i ==> resultBuffer[j] == Real(Blend(keys, kind, i1, t, j))
      {
        LinearSlots(keys, i1, t, i);
        resultBuffer[i] := Real(keys.values[offset0 + i] * weight0 + keys.values[offset1 + i] * weight1);
      }
    }

    method InterpolateCubic(i1: nat, t0: real, t: real, t1: real)
      requires Fits() && kind.Cubic? && i1 == KeysUpTo(keys.times, t) && 0 < i1 < |keys.times|
      requires t0 == keys.times[i1 - 1] && t1 == keys.times[i1] && t0 <= t < t1 && StoredFor(i1)
      modifies resultBuffer
      ensures Shows(t)
    {
      hide Keys.Valid, Keys.Sample, GapPrev, GapNext, IndexPrev, IndexNext, Blend, NumMix, NumCoefficients, Over;
      hide KeysUpTo, Outcome, Square, Cube;
      var stride := keys.stride;
      OffsetInside(i1, stride);
      var o1: nat := i1 * stride;
      var o0: nat := o1 - stride;
      var p := (t - t0) / (t1 - t0);
      forall j | 0 <= j < stride
        ensures FourInside(offsetPrev, o0, o1, offsetNext, j)
        ensures FourAt(offsetPrev, o0, o1, offsetNext, weightPrev, weightNext, p, j) == Outcome(keys, kind, t, j)
      {
        CubicSlots(keys, kind, i1, j);
        CubicOutcome(keys, kind, i1, t, j, p);
      }
      BlendFour(offsetPrev, o0, o1, offsetNext, weightPrev, weightNext, p);
    }

    // The polynomials and the loop of the cubic interpolate_.
    method BlendFour(oP: nat, o0: nat, o1: nat, oN: nat, wP: Num, wN: Num, p: real)
      requires resultBuffer.Length == keys.stride
      requires forall j :: 0 <= j < keys.stride ==> FourInside(oP, o0, o1, oN, j)
      modifies resultBuffer
      ensures forall j :: 0 <= j < keys.stride ==>
                FourInside(oP, o0, o1, oN, j) && resultBuffer[j] == FourAt(oP, o0, o1, oN, wP, wN, p, j)
    {
      hide NumCoefficients, NumMix;
      var values := keys.values;
      var pp := p * p;
      var ppp := pp * p;
      assert pp == Square(p) && ppp == Cube(p);
      hide Square, Cube;
      var f := NumCoefficients(wP, wN, p, pp, ppp);
      for i := 0 to keys.stride
        invariant forall j :: 0 <= j < i ==> resultBuffer[j] == FourAt(oP, o0, o1, oN, wP, wN, p, j)
      {
        assert FourInside(oP, o0, o1, oN, i);
        resultBuffer[i] := NumMix(f, values[oP + i], values[o0 + i], values[o1 + i], values[oN + i]);
        assert resultBuffer[i] == FourAt(oP, o0, o1, oN, wP, wN, p, i);
      }
    }

    function FourAt(oP: nat, o0: nat, o1: nat, oN: nat, wP: Num, wN: Num, p: real, j: nat): Num
      requires FourInside(oP, o0, o1, oN, j)
    {
      NumMix(NumCoefficients(wP, wN, p, Square(p), Cube(p)),
             keys.values[oP + j], keys.values[o0 + j], keys.values[o1 + j], keys.values[oN + j])
    }

    ghost predicate FourInside(oP: nat, o0: nat, o1: nat, oN: nat, j: nat) {
      oP + j < |keys.values| && o0 + j < |keys.values| && o1 + j < |keys.values| && oN + j < |keys.values|
    }
  }

  lemma CubicBlendIs(wP: real, wN: real, p: real, pp: real, ppp: real, vP: real, v0: real, v1: real, vN: real)
    requires pp == p * p && ppp == pp * p
    ensures CubicBlend(wP, wN, p, vP, v0, v1, vN) == Mix(Coefficients(wP, wN, p, pp, ppp), vP, v0, v1, vN)
  {
  }
}
