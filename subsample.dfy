/**
 Positional slicing with a stride, as pandas' `DataFrame.iloc[:stop:step]`
 does it: Python slice semantics for a positive step.
 */
module Subsample {

  function Min(a: int, b: int): int {
    if a < b then a else b
  }

  /** Python's normalisation of a slice's upper bound for a sequence of length
      `len`: a negative bound counts from the end, and the result is cut to
      `0 .. len`. */
  function SliceStop(stop: int, len: nat): (k: nat)
    ensures k <= len
  {
    if stop < 0 then (if len + stop < 0 then 0 else len + stop)
    else Min(stop, len)
  }

  /** `s[::step]`: the elements of `s` at positions 0, step, 2 * step, ...
      (`StridedShape` proves that description). */
  function Strided<T>(s: seq<T>, step: nat): (r: seq<T>)
    requires step >= 1
    ensures 0 < |s| ==> 0 < |r| && r[0] == s[0]
    decreases |s|
  {
    if |s| == 0 then []
    else if |s| <= step then [s[0]]
    else [s[0]] + Strided(s[step..], step)
  }

  /** `s[::step]` has `|s| / step` elements, rounded up, and its `k`-th
      element is the one at position `k * step` of `s`. */
  lemma StridedShape<T>(s: seq<T>, step: nat)
    requires step >= 1
    ensures |Strided(s, step)| == (|s| + step - 1) / step
    ensures forall k :: 0 <= k < |Strided(s, step)| ==>
      0 <= k * step < |s| && Strided(s, step)[k] == s[k * step]
  {
    StridedLength(s, step);
    StridedElements(s, step);
  }

  lemma {:induction false} StridedLength<T>(s: seq<T>, step: nat)
    requires step >= 1
    ensures |Strided(s, step)| == (|s| + step - 1) / step
    decreases |s|
  {
    if |s| == 0 {
    } else if |s| <= step {
      CeilOfPositiveUpToStep(|s|, step);
    } else {
      StridedLength(s[step..], step);
      CeilAfterOneStep(|s| - step, step);
    }
  }

  lemma {:induction false} StridedElements<T>(s: seq<T>, step: nat)
    requires step >= 1
    ensures forall k :: 0 <= k < |Strided(s, step)| ==>
      0 <= k * step < |s| && Strided(s, step)[k] == s[k * step]
    decreases |s|
  {
    if |s| > step {
      var rest := Strided(s[step..], step);
      var r := Strided(s, step);
      StridedElements(s[step..], step);
      assert r == [s[0]] + rest;
      forall k | 0 <= k < |r| ensures 0 <= k * step < |s| && r[k] == s[k * step] {
        if k > 0 {
          ShiftByOneStep(k, step);
          assert r[k] == rest[k - 1] == s[step..][(k - 1) * step];
        }
      }
    }
  }

  lemma CeilOfPositiveUpToStep(n: nat, step: nat)
    requires 1 <= n <= step
    ensures (n + step - 1) / step == 1
  {
    DivBetween(n + step - 1, step, 1);
  }

  lemma CeilAfterOneStep(n: nat, step: nat)
    requires step >= 1
    ensures (n + step + step - 1) / step == (n + step - 1) / step + 1
  {
    var q := (n + step - 1) / step;
    var r := (n + step - 1) % step;
    assert n + step - 1 == q * step + r;
    assert n + step + step - 1 == (q + 1) * step + r;
    DivBetween(n + step + step - 1, step, q + 1);
  }

  /** Division is determined by the bounds `q * d <= x < (q + 1) * d`. */
  lemma DivBetween(x: int, d: nat, q: int)
    requires d >= 1 && q * d <= x < (q + 1) * d
    ensures x / d == q
  {
    var q' := x / d;
    assert q' * d <= x < q' * d + d;
    assert (q - q' - 1) * d == q * d - q' * d - d;
    NegativeFactor(q - q' - 1, d);
    assert (q' - q - 1) * d == q' * d - q * d - d;
    NegativeFactor(q' - q - 1, d);
  }

  /** A product with a positive factor is negative only if the other factor is. */
  lemma NegativeFactor(a: int, d: int)
    requires d >= 1 && a * d < 0
    ensures a < 0
  {
  }

  lemma ShiftByOneStep(k: int, step: int)
    ensures (k - 1) * step + step == k * step
  {
  }

  /** `s.iloc[:stop:step]` for a positive step; a non-empty result starts
      with the first row of `s`. `ILocKeepsStrideRows` says which rows it
      holds. */
  function ILoc<T>(s: seq<T>, stop: int, step: int): (r: seq<T>)
    requires step >= 1
    ensures 0 < stop && 0 < |s| ==> 0 < |r| && r[0] == s[0]
  {
    Strided(s[..SliceStop(stop, |s|)], step)
  }

  /** The rows `s.iloc[:stop:step]` keeps are those at positions 0, step,
      2 * step, ... below the normalised bound, so their number is that
      bound divided by the step, rounded up. */
  lemma ILocKeepsStrideRows<T>(s: seq<T>, stop: int, step: int)
    requires step >= 1
    ensures |ILoc(s, stop, step)| == (SliceStop(stop, |s|) + step - 1) / step
    ensures forall k :: 0 <= k < |ILoc(s, stop, step)| ==>
      0 <= k * step < SliceStop(stop, |s|) && ILoc(s, stop, step)[k] == s[k * step]
  {
    var n := SliceStop(stop, |s|);
    var r := Strided(s[..n], step);
    StridedShape(s[..n], step);
    forall k | 0 <= k < |r| ensures 0 <= k * step < n && r[k] == s[k * step] {
      assert r[k] == s[..n][k * step];
    }
  }

  /** The converse of `ILoc`'s description: every position below the
      normalised bound that is a multiple of the step is kept, at index
      `j / step` of the result. */
  lemma ILocKeepsEveryStrideRow<T>(s: seq<T>, stop: int, step: int, j: int)
    requires step >= 1 && 0 <= j < SliceStop(stop, |s|) && j % step == 0
    ensures j / step < |ILoc(s, stop, step)| && ILoc(s, stop, step)[j / step] == s[j]
  {
    var k := j / step;
    StrideIndexInRange(SliceStop(stop, |s|), step, j);
    ILocKeepsStrideRows(s, stop, step);
    assert ILoc(s, stop, step)[k] == s[k * step];
  }

  lemma StrideIndexInRange(n: nat, step: nat, j: int)
    requires step >= 1 && 0 <= j < n && j % step == 0
    ensures (j / step) * step == j
    ensures j / step < (n + step - 1) / step
  {
    var k := j / step;
    var q := (n + step - 1) / step;
    assert j == k * step + j % step;
    assert k * step + step <= n + step - 1 < q * step + step;
    assert (k - q) * step == k * step - q * step;
    NegativeFactor(k - q, step);
  }

  /** With a stride of 1, `s.iloc[:stop:1]` is the plain prefix `s[:stop]`. */
  lemma ILocUnitStride<T>(s: seq<T>, stop: int)
    ensures ILoc(s, stop, 1) == s[..SliceStop(stop, |s|)]
  {
    ILocKeepsStrideRows(s, stop, 1);
  }
}
