/**
 The camera geometry of the cluster fly-through in demo/save_video.py: the
 conversion of a view vector into turntable azimuth and elevation
 (`vec_to_ae`), the elevation offset, numpy's `linspace` and the two-element
 stable sort that orients each cluster's azimuth window.

 The library maths the planner calls (numpy's `arctan2` followed by
 `degrees`, numpy's `sqrt` and pandas' `median`) is not computed here: it is
 passed in as a `Numerics` value, and `Lawful` states the only facts the
 proofs rely on.
 */
module Camera {

  /** The floating-point library functions the planner uses, left uninterpreted.
      `atan2Deg(y, x)` stands for `np.degrees(np.arctan2(y, x))`. */
  datatype Numerics = Numerics(
    atan2Deg: (real, real) -> real,
    sqrt: real -> real,
    median: seq<real> -> real)

  /** The range facts of the library functions: arctan2 in degrees lies in
      [-180, 180], and in [-90, 90] when its second argument is not negative;
      the square root of a non-negative number is not negative. */
  ghost predicate Lawful(m: Numerics) {
    && (forall y, x :: -180.0 <= m.atan2Deg(y, x) <= 180.0)
    && (forall y, x :: 0.0 <= x ==> -90.0 <= m.atan2Deg(y, x) <= 90.0)
    && (forall t :: 0.0 <= t ==> 0.0 <= m.sqrt(t))
  }

  function Abs(x: real): real {
    if x < 0.0 then -x else x
  }

  /** numpy's `sign`: 1, -1 or 0. */
  function Sign(x: real): real {
    if x > 0.0 then 1.0 else if x < 0.0 then -1.0 else 0.0
  }

  /** `x` lies in the closed interval spanned by `a` and `b`, in either order. */
  predicate Between(x: real, a: real, b: real) {
    (a <= x <= b) || (b <= x <= a)
  }

  /** `vec_to_ae`: the azimuth is measured from the -y axis and the elevation
      from the x-y plane. Because arctan2 never exceeds 180 degrees, the
      `a > 180` branch never fires and the azimuth is always the raw angle
      plus 90, within [-90, 270]; the elevation is an arctan2 whose second
      argument is a square root, so it lies in [-90, 90]. */
  function VecToAe(v: (real, real, real), m: Numerics): (ae: (real, real))
    requires Lawful(m)
    ensures ae.0 == m.atan2Deg(v.1, v.0) + 90.0
    ensures -90.0 <= ae.0 <= 270.0
    ensures ae.1 == m.atan2Deg(v.2, m.sqrt(v.0 * v.0 + v.1 * v.1))
    ensures -90.0 <= ae.1 <= 90.0
  {
    var raw := m.atan2Deg(v.1, v.0);
    var a := if raw > 180.0 then raw - 270.0 else raw + 90.0;
    var planar := v.0 * v.0 + v.1 * v.1;
    SquaresNonNegative(v.0, v.1);
    var e := m.atan2Deg(v.2, m.sqrt(planar));
    ElevationRange(m, v.2, m.sqrt(planar));
    (a, e)
  }

  lemma ElevationRange(m: Numerics, y: real, x: real)
    requires Lawful(m) && 0.0 <= x
    ensures -90.0 <= m.atan2Deg(y, x) <= 90.0
  {
  }

  lemma SquaresNonNegative(x: real, y: real)
    ensures 0.0 <= x * x + y * y
  {
    if x < 0.0 { ProductNonNegative(-x, -x); } else { ProductNonNegative(x, x); }
    if y < 0.0 { ProductNonNegative(-y, -y); } else { ProductNonNegative(y, y); }
  }

  lemma ProductNonNegative(x: real, y: real)
    requires 0.0 <= x && 0.0 <= y
    ensures 0.0 <= x * y
  {
  }

  /** `np.sign(e) * (np.abs(e) - view_ele_offset)`: the elevation is pulled
      towards the horizon by `off` degrees. There is no clamp: a cluster whose
      elevation is nearer the horizon than `off` has its camera moved across
      the horizon, to the opposite sign. */
  function OffsetElevation(e: real, off: real): (r: real)
    ensures e == 0.0 ==> r == 0.0
    ensures e != 0.0 ==> Abs(r) == Abs(Abs(e) - off)
    ensures e != 0.0 && Abs(e) >= off ==> Abs(r) == Abs(e) - off
    ensures Abs(e) > off ==> Sign(r) == Sign(e)
    ensures 0.0 < Abs(e) < off ==> Sign(r) == -Sign(e)
    ensures 0.0 <= off <= 90.0 && -90.0 <= e <= 90.0 ==> -90.0 <= r <= 90.0
  {
    Sign(e) * (Abs(e) - off)
  }

  /** numpy's `linspace(start, stop, num)` with its default `endpoint=True`:
      `num` evenly spaced values, the first exactly `start` and, when there
      are at least two, the last exactly `stop`; a single value is `start`. */
  function Linspace(start: real, stop: real, num: nat): (r: seq<real>)
    ensures |r| == num
    ensures num >= 1 ==> r[0] == start
    ensures num >= 2 ==> r[num - 1] == stop
    ensures num >= 2 ==> forall i :: 0 <= i < num - 1 ==>
      r[i + 1] - r[i] == (stop - start) / (num - 1) as real
    ensures forall i :: 0 <= i < num ==> Between(r[i], start, stop)
  {
    if num == 0 then []
    else if num == 1 then [start]
    else
      InterpolatedFacts(start, stop, num);
      Interpolated(start, stop, num)
  }

  /** The values `start + i / (num - 1) * (stop - start)` for `i` below `num`. */
  function Interpolated(start: real, stop: real, num: nat): seq<real>
    requires num >= 2
  {
    seq(num, i requires 0 <= i < num => start + Fraction(i, num - 1) * (stop - start))
  }

  lemma InterpolatedFacts(start: real, stop: real, num: nat)
    requires num >= 2
    ensures Interpolated(start, stop, num)[0] == start
    ensures Interpolated(start, stop, num)[num - 1] == stop
    ensures forall i :: 0 <= i < num - 1 ==>
      Interpolated(start, stop, num)[i + 1] - Interpolated(start, stop, num)[i]
        == (stop - start) / (num - 1) as real
    ensures forall i :: 0 <= i < num ==> Between(Interpolated(start, stop, num)[i], start, stop)
  {
    var r := Interpolated(start, stop, num);
    InterpolatedAt(start, stop, num, 0);
    InterpolatedAt(start, stop, num, num - 1);
    forall i | 0 <= i < num ensures Between(r[i], start, stop) {
      InterpolatedAt(start, stop, num, i);
    }
    forall i | 0 <= i < num - 1
      ensures r[i + 1] - r[i] == (stop - start) / (num - 1) as real
    {
      InterpolatedAt(start, stop, num, i);
      InterpolatedAt(start, stop, num, i + 1);
      FractionStep(i, num - 1, stop - start);
    }
  }

  lemma InterpolatedAt(start: real, stop: real, num: nat, i: nat)
    requires num >= 2 && i < num
    ensures Interpolated(start, stop, num)[i] == start + Fraction(i, num - 1) * (stop - start)
    ensures Between(Interpolated(start, stop, num)[i], start, stop)
    ensures i == 0 ==> Interpolated(start, stop, num)[i] == start
    ensures i == num - 1 ==> Interpolated(start, stop, num)[i] == stop
  {
    InterpolationBetween(start, stop, i, num - 1);
    if i == num - 1 {
      SelfQuotient((num - 1) as real);
    }
  }

  lemma SelfQuotient(d: real)
    requires d > 0.0
    ensures d / d == 1.0
  {
    assert d * (d / d) == d * 1.0;
  }

  /** `i / d` as a real number. */
  function Fraction(i: nat, d: nat): real
    requires d > 0
  {
    i as real / d as real
  }

  lemma FractionStep(i: nat, d: nat, span: real)
    requires 0 < d
    ensures Fraction(i + 1, d) * span - Fraction(i, d) * span == span / d as real
  {
    assert Fraction(i + 1, d) - Fraction(i, d) == 1.0 / d as real;
  }

  lemma InterpolationBetween(a: real, b: real, i: nat, d: nat)
    requires 0 < d && i <= d
    ensures Between(a + Fraction(i, d) * (b - a), a, b)
  {
    var t := Fraction(i, d);
    assert 0.0 <= t <= 1.0;
    if a <= b {
      ProductNonNegative(t, b - a);
      ProductNonNegative(1.0 - t, b - a);
    } else {
      ProductNonNegative(t, a - b);
      ProductNonNegative(1.0 - t, a - b);
    }
  }

  /** Python's `sorted([lo, hi], key=lambda aa: abs(aa - last))`: the end of
      the window nearer to `last` comes first. The sort is stable, so on a
      tie `lo` stays first. */
  function TieBreak(lo: real, hi: real, last: real): (w: (real, real))
    ensures (w.0 == lo && w.1 == hi) || (w.0 == hi && w.1 == lo)
    ensures Abs(w.0 - last) <= Abs(w.1 - last)
    ensures Abs(lo - last) == Abs(hi - last) ==> w == (lo, hi)
  {
    if Abs(hi - last) < Abs(lo - last) then (hi, lo) else (lo, hi)
  }

  /** An independent description of the tie-break on a window `a - off ..
      a + off` of positive width: the sweep runs upwards exactly when the
      previous exit angle is not above the window's centre. */
  lemma TieBreakDirection(a: real, off: real, last: real)
    requires off > 0.0
    ensures TieBreak(a - off, a + off, last)
      == if last <= a then (a - off, a + off) else (a + off, a - off)
  {
  }
}
