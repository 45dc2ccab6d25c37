// Keyframe tracks: dropping keys the curve does not need, and trimming a track to a
// range of times.
module Tracks {
  import opened Interpolation

  // The k-th group of stride numbers.
  function Row(s: seq<real>, k: nat, n: nat, stride: nat): (r: seq<real>)
    requires k < n && |s| == n * stride
    ensures |r| == stride
  {
    RowInside(k, n, stride);
    s[k * stride..k * stride + stride]
  }

  lemma RowIsSample(c: Keys, k: nat, j: nat)
    requires c.Shaped() && k < |c.times| && j < c.stride
    ensures Row(c.values, k, |c.times|, c.stride)[j] == c.Sample(k, j)
  {
    RowInside(k, |c.times|, c.stride);
  }

  // -------------------------------------------------------------------- what is kept

  // Does the sample at k differ from the one next to it?
  ghost predicate SameSample(c: Keys, a: nat, b: nat)
    requires c.Shaped() && a < |c.times| && b < |c.times|
  {
    Row(c.values, a, |c.times|, c.stride) == Row(c.values, b, |c.times|, c.stride)
  }

  // The rule for an inner key.
  ghost predicate Keep(c: Keys, smooth: bool, i: nat)
    requires c.Shaped() && 0 < i < |c.times| - 1
  {
    && c.times[i] != c.times[i + 1] && (i == 1 ==> c.times[i] != c.times[0])
    && (smooth || !SameSample(c, i, i - 1) || !SameSample(c, i, i + 1))
  }

  // The keys below i that stay, key 0 first.
  ghost function KeptBelow(c: Keys, smooth: bool, i: nat): (idx: seq<nat>)
    requires c.Shaped() && 0 < i && (i == 1 || i < |c.times|)
    ensures forall q :: 0 <= q < |idx| ==> idx[q] < i
    ensures 0 < |idx| <= i
  {
    if i == 1 then [0]
    else KeptBelow(c, smooth, i - 1) + if Keep(c, smooth, i - 1) then [i - 1] else []
  }

  // All that stay: the last key always does.
  ghost function KeptKeys(c: Keys, smooth: bool): (idx: seq<nat>)
    requires c.Shaped()
    ensures forall q :: 0 <= q < |idx| ==> idx[q] < |c.times|
    ensures |idx| > 0
  {
    if |c.times| == 1 then [0]
    else KeptBelow(c, smooth, |c.times| - 1) + [|c.times| - 1]
  }

  ghost function PickRows(c: Keys, idx: seq<nat>): (s: seq<real>)
    requires c.Shaped() && forall q :: 0 <= q < |idx| ==> idx[q] < |c.times|
    ensures |s| == |idx| * c.stride
  {
    if idx == [] then []
    else PickRows(c, idx[..|idx| - 1]) + Row(c.values, idx[|idx| - 1], |c.times|, c.stride)
  }

  ghost function Pick(c: Keys, idx: seq<nat>): Keys
    requires c.Shaped() && forall q :: 0 <= q < |idx| ==> idx[q] < |c.times|
  {
    Keys(seq(|idx|, q requires 0 <= q < |idx| => c.times[idx[q]]), PickRows(c, idx), c.stride)
  }

  ghost function Optimized(c: Keys, smooth: bool): Keys
    requires c.Shaped()
  {
    Pick(c, KeptKeys(c, smooth))
  }

  lemma RowOfPrefix(s: seq<real>, more: seq<real>, q: nat, n: nat, stride: nat)
    requires q < n && |s| == n * stride && |more| == stride
    ensures |s + more| == (n + 1) * stride
    ensures Row(s + more, q, n + 1, stride) == Row(s, q, n, stride)
  {
    RowInside(q, n, stride);
  }

  lemma {:induction false} RowOfPick(c: Keys, idx: seq<nat>, q: nat)
    requires c.Shaped() && (forall q :: 0 <= q < |idx| ==> idx[q] < |c.times|) && q < |idx|
    ensures Row(PickRows(c, idx), q, |idx|, c.stride) == Row(c.values, idx[q], |c.times|, c.stride)
  {
    var n := |idx| - 1;
    var s := PickRows(c, idx[..n]);
    RowInside(q, |idx|, c.stride);
    if q < n {
      RowOfPick(c, idx[..n], q);
      RowInside(q, n, c.stride);
      RowOfPrefix(s, Row(c.values, idx[n], |c.times|, c.stride), q, n, c.stride);
    } else {
      assert q * c.stride == |s|;
    }
  }

  lemma RowAt(s: seq<real>, k: nat, n: nat, stride: nat, x: nat)
    requires k < n && |s| == n * stride && k * stride <= x < k * stride + stride
    ensures x < |s| && Row(s, k, n, stride)[x - k * stride] == s[x]
  {
    RowInside(k, n, stride);
  }

  lemma Grows(a: nat, b: nat, stride: nat)
    requires a <= b
    ensures a * stride <= b * stride
  {
  }

  lemma InRow(x: nat, n: nat, stride: nat)
    requires stride > 0 && x < n * stride
    ensures x / stride < n && x / stride * stride <= x < x / stride * stride + stride
  {
    if n <= x / stride {
      Grows(n, x / stride, stride);
    }
  }

  lemma RowsDetermine(a: seq<real>, b: seq<real>, n: nat, stride: nat)
    requires |a| == |b| == n * stride
    requires forall k :: 0 <= k < n ==> Row(a, k, n, stride) == Row(b, k, n, stride)
    ensures a == b
  {
    hide Row;
    forall x | 0 <= x < |a|
      ensures a[x] == b[x]
    {
      InRow(x, n, stride);
      var k := x / stride;
      assert Row(a, k, n, stride) == Row(b, k, n, stride);
      RowAt(a, k, n, stride, x);
      RowAt(b, k, n, stride, x);
    }
  }

  // ------------------------------------------------------------------------ trimming

  // The first key not before s, or the length if there is none.
  ghost function FirstFrom(times: seq<real>, s: real): (k: nat)
    ensures k <= |times|
    ensures forall i :: 0 <= i < k ==> times[i] < s
    ensures k < |times| ==> s <= times[k]
  {
    if times == [] || s <= times[0] then 0 else 1 + FirstFrom(times[1..], s)
  }

  // One past the last key not after e.
  ghost function EndUpTo(times: seq<real>, e: real): (k: nat)
    ensures k <= |times|
    ensures forall i :: k <= i < |times| ==> e < times[i]
    ensures k > 0 ==> times[k - 1] <= e
  {
    if times == [] || times[|times| - 1] <= e then |times| else EndUpTo(times[..|times| - 1], e)
  }

  lemma FirstIs(times: seq<real>, s: real, k: nat)
    requires k <= |times| && (forall i :: 0 <= i < k ==> times[i] < s) && (k < |times| ==> s <= times[k])
    ensures FirstFrom(times, s) == k
  {
  }

  lemma EndIs(times: seq<real>, e: real, k: nat)
    requires k <= |times| && (forall i :: k <= i < |times| ==> e < times[i]) && (k > 0 ==> times[k - 1] <= e)
    ensures EndUpTo(times, e) == k
  {
  }

  ghost function TrimmedRange(times: seq<real>, s: real, e: real): (r: (nat, nat))
    requires |times| > 0
    ensures r.0 < r.1 <= |times|
  {
    var from, to := FirstFrom(times, s), EndUpTo(times, e);
    if from < to then (from, to)
    else if to == 0 then (0, 1)
    else (to - 1, to)
  }

  lemma RangeInside(from: nat, to: nat, n: nat, stride: nat)
    requires from <= to <= n
    ensures 0 <= from * stride <= to * stride <= n * stride
    ensures to * stride - from * stride == (to - from) * stride
  {
  }

  // Keys from up to but not including to.
  ghost function Cut(c: Keys, from: nat, to: nat): (d: Keys)
    requires c.Shaped() && from < to <= |c.times|
    ensures d.Shaped()
  {
    RangeInside(from, to, |c.times|, c.stride);
    Keys(c.times[from..to], c.values[from * c.stride..to * c.stride], c.stride)
  }

  ghost function Trimmed(c: Keys, s: real, e: real): Keys
    requires c.Shaped()
  {
    var r := TrimmedRange(c.times, s, e);
    Cut(c, r.0, r.1)
  }

  // ---------------------------------------------------------------------- the object

  // Array.slice
  method Slice(a: array<real>, from: nat, to: nat) returns (b: array<real>)
    requires from <= to <= a.Length
    ensures fresh(b) && b[..] == a[from..to]
  {
    b := new real[to - from](i requires 0 <= i < to - from reads a => if from + i < a.Length then a[from + i] else 0.0);
  }

  lemma DivMod(x: nat, n: nat)
    requires n > 0
    ensures 0 <= x / n && x / n * n <= x < x / n * n + n
  {
  }

  lemma Exact(n: nat, stride: nat)
    requires n > 0
    ensures n * stride / n == stride
  {
    var q := n * stride / n;
    DivMod(n * stride, n);
    if q < stride { Grows(q + 1, stride, n); } else { Grows(stride, q, n); }
  }

  lemma WholeRows(n: nat, length: nat)
    requires n > 0
    ensures length % n == 0 <==> length == n * (length / n)
  {
  }

  lemma Next(k: nat, stride: nat)
    ensures 0 <= k * stride && (k + 1) * stride == k * stride + stride
  {
  }

  lemma ThreeRows(values: seq<real>, i: nat, n: nat, stride: nat, j: nat)
    requires |values| == n * stride && 0 < i < n - 1 && j < stride
    ensures stride <= i * stride && i * stride + stride + j < |values|
    ensures Row(values, i, n, stride)[j] == values[i * stride + j]
    ensures Row(values, i - 1, n, stride)[j] == values[i * stride - stride + j]
    ensures Row(values, i + 1, n, stride)[j] == values[i * stride + stride + j]
  {
    hide Row;
    Next(i - 1, stride);
    Next(i, stride);
    RowInside(i - 1, n, stride);
    RowInside(i + 1, n, stride);
    RowAt(values, i, n, stride, i * stride + j);
    RowAt(values, i - 1, n, stride, i * stride - stride + j);
    RowAt(values, i + 1, n, stride, i * stride + stride + j);
  }

  // Some component of row i differs from the row before or after.
  method Stands(values: seq<real>, i: nat, n: nat, stride: nat) returns (keep: bool)
    requires |values| == n * stride && 0 < i < n - 1
    ensures keep <==> Row(values, i, n, stride) != Row(values, i - 1, n, stride)
                      || Row(values, i, n, stride) != Row(values, i + 1, n, stride)
  {
    hide Row;
    ghost var row := Row(values, i, n, stride);
    ghost var rowP, rowN := Row(values, i - 1, n, stride), Row(values, i + 1, n, stride);
    var offset := i * stride;
    var offsetP, offsetN := offset - stride, offset + stride;
    keep := false;
    for j := 0 to stride
      invariant !keep && forall x :: 0 <= x < j ==> row[x] == rowP[x] && row[x] == rowN[x]
    {
      ThreeRows(values, i, n, stride, j);
      var value := values[offset + j];
      if value != values[offsetP + j] || value != values[offsetN + j] {
        keep := true;
        break;
      }
    }
    assert !keep ==> row == rowP && row == rowN;
  }

  // Slot q holds what was key k.
  ghost predicate SlotIs(c: Keys, q: nat, k: nat, times: seq<real>, values: seq<real>)
    requires c.Shaped() && |times| == |c.times| && |values| == |c.values| && q < |times| && k < |times|
  {
    times[q] == c.times[k] && Row(values, q, |times|, c.stride) == Row(c.values, k, |times|, c.stride)
  }

  // The first w slots hold the kept keys so far; from slot from on everything is as it was.
  ghost predicate Compacted(c: Keys, idx: seq<nat>, w: nat, from: nat, times: seq<real>, values: seq<real>) {
    && c.Shaped() && |times| == |c.times| && |values| == |c.values| && w == |idx| <= |times|
    && (forall q :: 0 <= q < w ==> idx[q] < |c.times| && SlotIs(c, q, idx[q], times, values))
    && (forall k :: from <= k < |times| ==> SlotIs(c, k, k, times, values))
  }

  // Does key i stay? Its slot and the two beside it still hold the original keys.
  method KeepsKey(times: array<real>, values: array<real>, i: nat, stride: nat, smooth: bool, ghost c: Keys,
                  ghost idx: seq<nat>)
    returns (keep: bool)
    requires c.Shaped() && stride == c.stride && 0 < i < times.Length - 1
    requires Compacted(c, idx, |idx|, i - 1, times[..], values[..])
    ensures keep <==> Keep(c, smooth, i)
  {
    hide Row;
    keep := false;
    var n := times.Length;
    assert SlotIs(c, i - 1, i - 1, times[..], values[..]) && SlotIs(c, i, i, times[..], values[..])
           && SlotIs(c, i + 1, i + 1, times[..], values[..]);
    if times[i] != times[i + 1] && (i != 1 || times[i] != times[0]) {
      if smooth {
        keep := true;
      } else {
        keep := Stands(values[..], i, n, stride);
      }
    }
  }

  lemma Apart(a: nat, b: nat, stride: nat)
    requires a <= b
    ensures a == b || a * stride + stride <= b * stride
  {
    Next(a, stride);
    if a < b { Grows(a + 1, b, stride); }
  }

  lemma RowsCopied(s0: seq<real>, s1: seq<real>, r: nat, w: nat, n: nat, stride: nat, k: nat)
    requires |s0| == |s1| == n * stride && r < n && w < n && k < n
    requires w * stride + stride <= |s0| && 0 <= w * stride && 0 <= r * stride && r * stride + stride <= |s0|
    requires forall x :: 0 <= x < |s0| ==>
               s1[x] == s0[if w * stride <= x < w * stride + stride then x - w * stride + r * stride else x]
    ensures Row(s1, k, n, stride) == Row(s0, if k == w then r else k, n, stride)
  {
    RowInside(k, n, stride);
    if k < w { Apart(k, w, stride); } else if w < k { Apart(w, k, stride); }
  }

  // Row r over row w, the other rows untouched.
  method CopyRow(values: array<real>, r: nat, w: nat, n: nat, stride: nat)
    requires values.Length == n * stride && w <= r < n
    modifies values
    ensures forall k :: 0 <= k < n ==>
              Row(values[..], k, n, stride) == Row(old(values[..]), if k == w then r else k, n, stride)
  {
    RowInside(r, n, stride);
    RowInside(w, n, stride);
    Apart(w, r, stride);
    var readOffset, writeOffset := r * stride, w * stride;
    for j := 0 to stride
      invariant forall x :: 0 <= x < values.Length ==>
                  values[x]
                    == old(values[if writeOffset <= x < writeOffset + j then x - writeOffset + readOffset else x])
    {
      values[writeOffset + j] := values[readOffset + j];
    }
    forall k | 0 <= k < n
      ensures Row(values[..], k, n, stride) == Row(old(values[..]), if k == w then r else k, n, stride)
    {
      RowsCopied(old(values[..]), values[..], r, w, n, stride, k);
    }
  }

  lemma CompactedParts(c: Keys, idx: seq<nat>, w: nat, from: nat, times: seq<real>, values: seq<real>)
    requires Compacted(c, idx, w, from, times, values)
    ensures c.Shaped() && |times| == |c.times| && |values| == |c.values| && w == |idx| <= |times|
  {
  }

  lemma CompactedStarts(c: Keys, smooth: bool)
    requires c.Shaped()
    ensures Compacted(c, KeptBelow(c, smooth, 1), 1, 0, c.times, c.values)
  {
  }

  lemma CompactedSkip(c: Keys, idx: seq<nat>, w: nat, i: nat, times: seq<real>, values: seq<real>)
    requires i > 0 && Compacted(c, idx, w, i - 1, times, values)
    ensures Compacted(c, idx, w, i, times, values)
  {
  }

  // Key i moved down to the slot after the kept ones.
  lemma CompactedStep(c: Keys, idx: seq<nat>, i: nat, t0: seq<real>, v0: seq<real>, t1: seq<real>, v1: seq<real>)
    requires 0 < |idx| <= i < |t0| && Compacted(c, idx, |idx|, i - 1, t0, v0)
    requires t1 == t0[|idx| := t0[i]] && |v1| == |v0|
    requires forall k :: 0 <= k < |t0| ==>
               Row(v1, k, |t0|, c.stride) == Row(v0, if k == |idx| then i else k, |t0|, c.stride)
    ensures Compacted(c, idx + [i], |idx| + 1, i, t1, v1)
  {
    hide Row;
    assert SlotIs(c, i, i, t0, v0);
    forall q | 0 <= q < |idx|
      ensures SlotIs(c, q, idx[q], t1, v1)
    {
      assert SlotIs(c, q, idx[q], t0, v0);
    }
    forall k | i <= k < |t1|
      ensures SlotIs(c, k, k, t1, v1)
    {
      assert SlotIs(c, k, k, t0, v0);
    }
  }

  lemma KeptStep(c: Keys, smooth: bool, i: nat)
    requires c.Shaped() && 0 < i < |c.times| - 1
    ensures |KeptBelow(c, smooth, i)| <= i
    ensures KeptBelow(c, smooth, i + 1)
         == if Keep(c, smooth, i) then KeptBelow(c, smooth, i) + [i] else KeptBelow(c, smooth, i)
  {
  }

  lemma KeptEnds(c: Keys, smooth: bool)
    requires c.Shaped()
    ensures |c.times| == 1 ==> KeptKeys(c, smooth) == KeptBelow(c, smooth, 1)
    ensures |c.times| > 1 ==> KeptKeys(c, smooth) == KeptBelow(c, smooth, |c.times| - 1) + [|c.times| - 1]
  {
  }

  method Compact(times: array<real>, values: array<real>, n: nat, stride: nat, smooth: bool, ghost c: Keys)
    returns (writeIndex: nat)
    requires c.Shaped() && c == Keys(times[..], values[..], stride) && n == times.Length && times != values
    modifies times, values
    ensures Compacted(c, KeptKeys(c, smooth), writeIndex, n - 1, times[..], values[..])
  {
    hide *;
    var lastIndex := n - 1;
    var i: nat := 1;
    writeIndex := 1;
    CompactedStarts(c, smooth);
    while i < lastIndex
      invariant 1 <= i && (n > 1 ==> i <= lastIndex) && (n == 1 ==> i == 1)
      invariant Compacted(c, KeptBelow(c, smooth, i), writeIndex, i - 1, times[..], values[..])
    {
      ghost var idx, t0, v0 := KeptBelow(c, smooth, i), times[..], values[..];
      CompactedParts(c, idx, writeIndex, i - 1, times[..], values[..]);
      var keep := KeepsKey(times, values, i, stride, smooth, c, idx);
      if keep {
        if i != writeIndex {
          times[writeIndex] := times[i];
          CopyRow(values, i, writeIndex, n, stride);
        }
        CompactedStep(c, idx, i, t0, v0, times[..], values[..]);
        writeIndex := writeIndex + 1;
      } else {
        CompactedSkip(c, idx, writeIndex, i, times[..], values[..]);
      }
      KeptStep(c, smooth, i);
      i := i + 1;
    }
    KeptEnds(c, smooth);
    if lastIndex > 0 {
      ghost var idx, t0, v0 := KeptBelow(c, smooth, i), times[..], values[..];
      CompactedParts(c, idx, writeIndex, i - 1, times[..], values[..]);
      times[writeIndex] := times[lastIndex];
      CopyRow(values, lastIndex, writeIndex, n, stride);
      CompactedStep(c, idx, lastIndex, t0, v0, times[..], values[..]);
      writeIndex := writeIndex + 1;
    }
  }

  lemma RowOfCut(s: seq<real>, q: nat, w: nat, n: nat, stride: nat)
    requires q < w <= n && |s| == n * stride
    ensures w * stride <= |s| && Row(s[..w * stride], q, w, stride) == Row(s, q, n, stride)
  {
    Grows(w, n, stride);
    RowInside(q, w, stride);
  }

  lemma CutIsPick(c: Keys, idx: seq<nat>, times: seq<real>, values: seq<real>)
    requires c.Shaped() && (forall q :: 0 <= q < |idx| ==> idx[q] < |c.times|) && 0 < |idx|
    requires Compacted(c, idx, |idx|, |c.times| - 1, times, values)
    ensures |idx| <= |times| && |idx| * c.stride <= |values|
    ensures Pick(c, idx) == Keys(times[..|idx|], values[..|idx| * c.stride], c.stride)
  {
    hide Row, PickRows;
    var w := |idx|;
    Grows(w, |times|, c.stride);
    forall q | 0 <= q < w
      ensures times[q] == c.times[idx[q]]
      ensures Row(values[..w * c.stride], q, w, c.stride) == Row(PickRows(c, idx), q, w, c.stride)
    {
      assert SlotIs(c, q, idx[q], times, values);
      RowOfCut(values, q, w, |times|, c.stride);
      RowOfPick(c, idx, q);
    }
    RowsDetermine(values[..w * c.stride], PickRows(c, idx), w, c.stride);
  }

  class KeyframeTrack {
    var times: array<real>
    var values: array<real>
    const kind: Kind

    ghost predicate Valid()
      reads this
    {
      times.Length > 0 && values.Length == times.Length * ValueSize()
    }

    function ValueSize(): nat
      requires times.Length > 0
      reads this
    {
      values.Length / times.Length
    }

    ghost function Contents(): (c: Keys)
      requires Valid()
      reads this, times, values
      ensures c.Shaped()
    {
      Keys(times[..], values[..], ValueSize())
    }

    // validate: says yes exactly to what the interpolants need.
    method Validate() returns (valid: bool)
      ensures valid <==> Valid() && Contents().Valid()
    {
      valid := true;
      if times.Length == 0 || values.Length % times.Length != 0 {
        valid := false;
      }
      var nKeys := times.Length;
      if nKeys == 0 {
        valid := false;
      }
      var i := 0;
      while i != nKeys
        invariant i <= nKeys && forall j, k :: 0 <= j < k < i ==> times[j] <= times[k]
        invariant valid <==> nKeys > 0 && values.Length % nKeys == 0
        decreases nKeys - i
      {
        if i > 0 && times[i - 1] > times[i] {
          valid := false;
          break;
        }
        i := i + 1;
      }
      if nKeys > 0 {
        WholeRows(nKeys, values.Length);
      }
    }

    // optimize: works on copies and compacts them in place. A key is compared with its
    // neighbours as they were, since only slots already read are overwritten.
    method Optimize()
      requires Valid()
      modifies this
      ensures Valid() && fresh(times) && fresh(values)
      ensures Contents() == Optimized(old(Contents()), kind.Cubic?)
    {
      hide Keep, KeptBelow, KeptKeys, Pick, Compacted;
      ghost var c := Contents();
      var n, stride := times.Length, ValueSize();
      var newTimes := Slice(times, 0, n);
      var newValues := Slice(values, 0, values.Length);
      var writeIndex := Compact(newTimes, newValues, n, stride, kind.Cubic?, c);
      CompactedParts(c, KeptKeys(c, kind.Cubic?), writeIndex, n - 1, newTimes[..], newValues[..]);
      CutIsPick(c, KeptKeys(c, kind.Cubic?), newTimes[..], newValues[..]);
      if writeIndex != n {
        newTimes := Slice(newTimes, 0, writeIndex);
        newValues := Slice(newValues, 0, writeIndex * stride);
      }
      times, values := newTimes, newValues;
      Exact(times.Length, stride);
    }

    method InRange(startTime: real, endTime: real) returns (from: nat, end: nat)
      ensures from == FirstFrom(times[..], startTime) && end == EndUpTo(times[..], endTime)
    {
      var nKeys := times.Length;
      var last := nKeys - 1;
      from := 0;
      while from != nKeys && times[from] < startTime
        invariant from <= nKeys && forall k :: 0 <= k < from ==> times[k] < startTime
        decreases nKeys - from
      {
        from := from + 1;
      }
      while last != -1 && times[last] > endTime
        invariant -1 <= last < nKeys && forall k :: last < k < nKeys ==> times[k] > endTime
        decreases last
      {
        last := last - 1;
      }
      end := last + 1;
      FirstIs(times[..], startTime, from);
      EndIs(times[..], endTime, end);
    }

    // trim: keeps the keys from the first not before startTime to the last not after
    // endTime, or a single key if there are none.
    method Trim(startTime: real, endTime: real)
      requires Valid()
      modifies this
      ensures Valid()
      ensures Contents() == Trimmed(old(Contents()), startTime, endTime)
    {
      hide FirstFrom, EndUpTo;
      var nKeys, stride := times.Length, ValueSize();
      var from, end := InRange(startTime, endTime);
      if from != 0 || end != nKeys {
        if from >= end {
          end := if end > 1 then end else 1;
          from := end - 1;
        }
        RangeInside(from, end, nKeys, stride);
        times := Slice(times, from, end);
        values := Slice(values, from * stride, end * stride);
        Exact(times.Length, stride);
      }
    }
  }
}
