/** Gravity calibration: the at-rest accelerometer reading is estimated as
    the per-axis mean of a fixed number of samples (position_tracking.py
    lines 348-358 and 434-463). */
module Calibration {
  import opened Vectors

  /** Samples averaged with a live sensor (line 456). */
  const LiveSampleCount: nat := 100
  /** Samples averaged in demo mode (line 352). */
  const DemoSampleCount: nat := 30

  function Sum(s: seq<Vec3>): Vec3
    decreases |s|
  {
    if s == [] then Zero else Add(Sum(s[..|s| - 1]), s[|s| - 1])
  }

  /** `np.mean(samples, axis=0)`. */
  function Mean(s: seq<Vec3>): Vec3
    requires |s| > 0
  {
    Scale(Sum(s), 1.0 / |s| as real)
  }

  /** Componentwise lo <= v <= hi. */
  predicate Between(v: Vec3, lo: Vec3, hi: Vec3) {
    lo.x <= v.x <= hi.x && lo.y <= v.y <= hi.y && lo.z <= v.z <= hi.z
  }

  lemma {:induction false} SumOfConstant(s: seq<Vec3>, c: Vec3)
    requires forall i :: 0 <= i < |s| ==> s[i] == c
    ensures Sum(s) == Scale(c, |s| as real)
    decreases |s|
  {
    if s != [] {
      SumOfConstant(s[..|s| - 1], c);
    }
  }

  /** Calibrating on samples that all read `c` yields the offset `c`. */
  lemma MeanOfConstant(s: seq<Vec3>, c: Vec3)
    requires |s| > 0
    requires forall i :: 0 <= i < |s| ==> s[i] == c
    ensures Mean(s) == c
  {
    SumOfConstant(s, c);
    var n := |s| as real;
    assert c.x * n * (1.0 / n) == c.x;
    assert c.y * n * (1.0 / n) == c.y;
    assert c.z * n * (1.0 / n) == c.z;
  }

  /** One axis of a vector: 0 is x, 1 is y, 2 is z. */
  function Axis(v: Vec3, axis: nat): real
    requires axis < 3
  {
    if axis == 0 then v.x else if axis == 1 then v.y else v.z
  }

  lemma MulMonotone(a: real, b: real, k: real)
    requires a <= b && 0.0 <= k
    ensures a * k <= b * k
  {
  }

  lemma MulSucc(a: real, m: real)
    ensures a * (m + 1.0) == a * m + a
  {
  }

  lemma AxisAdd(a: Vec3, b: Vec3, axis: nat)
    requires axis < 3
    ensures Axis(Add(a, b), axis) == Axis(a, axis) + Axis(b, axis)
  {
  }

  /** `x` added to itself `n` times. */
  function Multiple(x: real, n: nat): real
    decreases n
  {
    if n == 0 then 0.0 else Multiple(x, n - 1) + x
  }

  lemma {:induction false} MultipleIsProduct(x: real, n: nat)
    ensures Multiple(x, n) == x * n as real
    decreases n
  {
    if n > 0 {
      MultipleIsProduct(x, n - 1);
      MulSucc(x, (n - 1) as real);
      assert (n - 1) as real + 1.0 == n as real;
    }
  }

  lemma {:induction false} SumAxisBetween(s: seq<Vec3>, axis: nat, lo: real, hi: real)
    requires axis < 3
    requires forall i :: 0 <= i < |s| ==> lo <= Axis(s[i], axis) <= hi
    ensures Multiple(lo, |s|) <= Axis(Sum(s), axis) <= Multiple(hi, |s|)
    decreases |s|
  {
    if s != [] {
      var front := s[..|s| - 1];
      SumAxisBetween(front, axis, lo, hi);
      assert lo <= Axis(s[|s| - 1], axis) <= hi;
      AxisAdd(Sum(front), s[|s| - 1], axis);
    }
  }

  lemma AxisScale(v: Vec3, k: real, axis: nat)
    requires axis < 3
    ensures Axis(Scale(v, k), axis) == Axis(v, axis) * k
  {
  }

  lemma DivideBounds(lo: real, t: real, hi: real, k: nat, m: real)
    requires 0 < k && Multiple(lo, k) <= t <= Multiple(hi, k)
    requires m == t * (1.0 / k as real)
    ensures lo <= m <= hi
  {
    MultipleIsProduct(lo, k);
    MultipleIsProduct(hi, k);
    ScaleBackBounds(lo, t, hi, k as real);
  }

  lemma ScaleBackBounds(lo: real, t: real, hi: real, n: real)
    requires 0.0 < n && lo * n <= t <= hi * n
    ensures lo <= t * (1.0 / n) <= hi
  {
    var k := 1.0 / n;
    assert n * k == 1.0;
    MulMonotone(lo * n, t, k);
    MulMonotone(t, hi * n, k);
    assert lo * n * k == lo * (n * k);
    assert hi * n * k == hi * (n * k);
  }

  lemma MeanAxis(s: seq<Vec3>, axis: nat)
    requires |s| > 0 && axis < 3
    ensures Axis(Mean(s), axis) == Axis(Sum(s), axis) * (1.0 / |s| as real)
  {
    AxisScale(Sum(s), 1.0 / |s| as real, axis);
  }

  lemma MeanAxisBetween(s: seq<Vec3>, axis: nat, lo: real, hi: real)
    requires |s| > 0 && axis < 3
    requires forall i :: 0 <= i < |s| ==> lo <= Axis(s[i], axis) <= hi
    ensures lo <= Axis(Mean(s), axis) <= hi
  {
    SumAxisBetween(s, axis, lo, hi);
    MeanAxis(s, axis);
    DivideBounds(lo, Axis(Sum(s), axis), hi, |s|, Axis(Mean(s), axis));
  }

  /** The offset lies inside the box spanned by the samples' readings: one
      outlier can bias it, but never beyond the extreme readings. */
  lemma MeanBetween(s: seq<Vec3>, lo: Vec3, hi: Vec3)
    requires |s| > 0
    requires forall i :: 0 <= i < |s| ==> Between(s[i], lo, hi)
    ensures Between(Mean(s), lo, hi)
  {
    forall axis | 0 <= axis < 3
      ensures Axis(lo, axis) <= Axis(Mean(s), axis) <= Axis(hi, axis)
    {
      forall i | 0 <= i < |s|
        ensures Axis(lo, axis) <= Axis(s[i], axis) <= Axis(hi, axis)
      {
        assert Between(s[i], lo, hi);
      }
      MeanAxisBetween(s, axis, Axis(lo, axis), Axis(hi, axis));
    }
    assert Axis(lo, 0) <= Axis(Mean(s), 0) <= Axis(hi, 0);
    assert Axis(lo, 1) <= Axis(Mean(s), 1) <= Axis(hi, 1);
    assert Axis(lo, 2) <= Axis(Mean(s), 2) <= Axis(hi, 2);
  }
}
