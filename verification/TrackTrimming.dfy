// What trimming a track keeps of its curve.
module TrackTrimming {
  import opened Interpolation
  import opened Curves
  import opened Tracks

  // The keys kept are those within the range; if there are none, the last key before its
  // end, or else the first of all.
  lemma TrimmedRangeIs(times: seq<real>, s: real, e: real, k: nat)
    requires |times| > 0 && Ordered(times) && k < |times|
    ensures var r := TrimmedRange(times, s, e);
            if exists i :: 0 <= i < |times| && s <= times[i] <= e then
              r.0 <= k < r.1 <==> s <= times[k] <= e
            else
              && r.1 == r.0 + 1
              && (if times[0] <= e then times[r.0] <= e && (k > r.0 ==> e < times[k]) else r.0 == 0)
  {
    hide FirstFrom, EndUpTo;
    var from, to := FirstFrom(times, s), EndUpTo(times, e);
    if from < to {
      assert s <= times[from] <= times[to - 1] <= e;
    }
    if i :| 0 <= i < |times| && s <= times[i] <= e {
      assert from <= i < to;
    }
  }

  lemma CutParts(c: Keys, from: nat, to: nat)
    requires c.Valid() && from < to <= |c.times|
    ensures var d := Cut(c, from, to);
            && d.Valid() && d.times == c.times[from..to] && d.stride == c.stride && (c.Strict() ==> d.Strict())
  {
  }

  lemma CutCount(c: Keys, from: nat, to: nat, t: real)
    requires c.Valid() && from < to <= |c.times| && from <= KeysUpTo(c.times, t) <= to
    ensures KeysUpTo(Cut(c, from, to).times, t) == KeysUpTo(c.times, t) - from
  {
    CutParts(c, from, to);
    KeysUpToSplits(c.times, t);
    hide Cut, KeysUpTo, Keys.Strict;
    CountedAt(Cut(c, from, to), t, KeysUpTo(c.times, t) - from);
  }

  lemma CutSample(c: Keys, from: nat, to: nat, k: nat, j: nat)
    requires c.Valid() && from <= k < to <= |c.times| && j < c.stride
    ensures var d := Cut(c, from, to);
            d.Valid() && d.stride == c.stride && k - from < |d.times| && d.Sample(k - from, j) == c.Sample(k, j)
  {
    RangeInside(from, to, |c.times|, c.stride);
    RangeInside(from, k, |c.times|, c.stride);
    RowInside(k - from, to - from, c.stride);
    RowInside(k, |c.times|, c.stride);
  }

  lemma CutBlend(c: Keys, kind: Kind, from: nat, to: nat, i: nat, t: real, j: nat)
    requires c.Valid() && !kind.Cubic? && from < i < to <= |c.times| && c.times[i - 1] < c.times[i] && j < c.stride
    ensures var d := Cut(c, from, to);
            && d.Valid() && d.stride == c.stride && i - from < |d.times| && d.times[i - from - 1] < d.times[i - from]
            && Blend(d, kind, i - from, t, j) == Blend(c, kind, i, t, j)
  {
    hide Keys.Sample, Cut;
    CutParts(c, from, to);
    CutSample(c, from, to, i - 1, j);
    CutSample(c, from, to, i, j);
  }

  // Between the first and the last kept key a discrete or linear curve is as it was.
  lemma TrimKeepsCurve(c: Keys, kind: Kind, s: real, e: real, t: real, j: nat)
    requires c.Valid() && !kind.Cubic? && j < c.stride
    requires FirstFrom(c.times, s) < EndUpTo(c.times, e)
    requires c.times[FirstFrom(c.times, s)] <= t <= c.times[EndUpTo(c.times, e) - 1]
    ensures Trimmed(c, s, e).Valid() && Trimmed(c, s, e).stride == c.stride
    ensures Value(Trimmed(c, s, e), kind, t, j) == Value(c, kind, t, j)
  {
    hide Keys.Sample, KeysUpTo, FirstFrom, EndUpTo, Blend, Cut;
    var from, to := FirstFrom(c.times, s), EndUpTo(c.times, e);
    var d, i := Cut(c, from, to), KeysUpTo(c.times, t);
    KeysUpToSplits(c.times, t);
    CutParts(c, from, to);
    if to < |c.times| { assert c.times[to - 1] <= e < c.times[to]; }
    CutCount(c, from, to, t);
    if i == to {
      CutSample(c, from, to, to - 1, j);
      if to < |c.times| { BlendStarts(c, kind, to, j); }
    } else {
      CutBlend(c, kind, from, to, i, t, j);
    }
  }

  // A cubic piece looks one key past its interval. Cutting the keys from .. to leaves the
  // curve alone at t if these are kept too, or made up at an end that stays an end.
  ghost predicate Undisturbed(c: Keys, kind: Kind, from: nat, to: nat, t: real)
    requires kind.Cubic?
  {
    var i, n := KeysUpTo(c.times, t), |c.times|;
    if i == 0 then from == 0
    else if i == n then to == n
    else
      && (from == 0 || from + 2 <= i) && (to == n || i + 1 < to)
      && (i == 1 && kind.start.WrapAround? ==> to == n)
      && (i + 1 == n && kind.end.WrapAround? ==> from == 0)
  }

  // d's times are c's from that key on.
  predicate Window(c: Keys, d: Keys, from: nat) {
    from + |d.times| <= |c.times| && forall k :: 0 <= k < |d.times| ==> d.times[k] == c.times[k + from]
  }

  lemma CutWindow(c: Keys, from: nat, to: nat)
    requires c.Valid() && from < to <= |c.times|
    ensures var d := Cut(c, from, to); |d.times| == to - from && Window(c, d, from)
  {
    hide Keys.Valid;
    CutParts(c, from, to);
  }

  lemma PrevInWindow(c: Keys, d: Keys, start: Ending, from: nat, i: nat)
    requires Window(c, d, from) && from < i < from + |d.times|
    requires from == 0 || from + 2 <= i
    requires i == 1 && start.WrapAround? ==> |d.times| == |c.times|
    ensures IndexPrev(c, start, i) == IndexPrev(d, start, i - from) + from
    ensures GapPrev(c, start, i) == GapPrev(d, start, i - from)
  {
    hide Keys.Strict;
  }

  lemma NextInWindow(c: Keys, d: Keys, end: Ending, from: nat, i: nat)
    requires Window(c, d, from) && from < i < from + |d.times|
    requires from + |d.times| == |c.times| || i + 1 < from + |d.times|
    requires i + 1 == |c.times| && end.WrapAround? ==> from == 0
    ensures IndexNext(c, end, i) == IndexNext(d, end, i - from) + from
    ensures GapNext(c, end, i) == GapNext(d, end, i - from)
  {
    hide Keys.Strict;
    assert d.times[i - from] == c.times[i] && d.times[i - from - 1] == c.times[i - 1];
  }

  lemma CutCubic(c: Keys, kind: Kind, from: nat, to: nat, i: nat, t: real, j: nat)
    requires c.Valid() && kind.Cubic? && from < i < to <= |c.times| && c.times[i - 1] < c.times[i] && j < c.stride
    requires (from == 0 || from + 2 <= i) && (to == |c.times| || i + 1 < to)
    requires i == 1 && kind.start.WrapAround? ==> to == |c.times|
    requires i + 1 == |c.times| && kind.end.WrapAround? ==> from == 0
    ensures var d := Cut(c, from, to);
            && d.Valid() && d.stride == c.stride && 0 < i - from < |d.times|
            && d.times[i - from - 1] < d.times[i - from]
            && (KeysDiffer(d, kind, i - from) <==> KeysDiffer(c, kind, i))
            && (KeysDiffer(c, kind, i) ==> Blend(d, kind, i - from, t, j) == Blend(c, kind, i, t, j))
  {
    hide Keys.Sample, Cut, CubicBlend, IndexPrev, IndexNext, GapPrev, GapNext, Keys.Strict;
    CutParts(c, from, to);
    CutWindow(c, from, to);
    PrevInWindow(c, Cut(c, from, to), kind.start, from, i);
    NextInWindow(c, Cut(c, from, to), kind.end, from, i);
    CutSample(c, from, to, IndexPrev(c, kind.start, i), j);
    CutSample(c, from, to, i - 1, j);
    CutSample(c, from, to, i, j);
    CutSample(c, from, to, IndexNext(c, kind.end, i), j);
  }

  lemma TrimKeepsCubic(c: Keys, kind: Kind, s: real, e: real, t: real, j: nat)
    requires c.Valid() && kind.Cubic? && j < c.stride
    requires FirstFrom(c.times, s) < EndUpTo(c.times, e)
    requires Undisturbed(c, kind, FirstFrom(c.times, s), EndUpTo(c.times, e), t)
    ensures Trimmed(c, s, e).Valid() && Trimmed(c, s, e).stride == c.stride
    ensures Outcome(Trimmed(c, s, e), kind, t, j) == Outcome(c, kind, t, j)
  {
    hide Keys.Sample, KeysUpTo, FirstFrom, EndUpTo, Blend, Cut, Keys.Strict, KeysDiffer;
    var from, to := FirstFrom(c.times, s), EndUpTo(c.times, e);
    var d, i := Cut(c, from, to), KeysUpTo(c.times, t);
    KeysUpToSplits(c.times, t);
    CutParts(c, from, to);
    CutCount(c, from, to, t);
    if i == 0 {
      CutSample(c, from, to, 0, j);
    } else if i == |c.times| {
      CutSample(c, from, to, i - 1, j);
    } else {
      CutCubic(c, kind, from, to, i, t, j);
      hide Outcome;
      OutcomeInside(c, kind, i, t, j);
      OutcomeInside(d, kind, i - from, t, j);
    }
  }
}
