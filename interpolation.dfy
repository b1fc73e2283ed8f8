/** Clamped piecewise-linear interpolation, as `Animated.Value.interpolate` and
    Reanimated's `interpolate` compute it with `extrapolate: "clamp"` /
    `Extrapolation.CLAMP`. The libraries' own code is not part of this model,
    so the semantics is written out here: between two neighbouring knots the
    output is the straight line through them; left of the first knot it is the
    first output, right of the last knot the last output. */
module Interpolation {
  import opened Screen
  import Arith

  /** The input range must strictly increase. */
  predicate StrictlyIncreasing(xs: seq<real>) {
    forall i, j :: 0 <= i < j < |xs| ==> xs[i] < xs[j]
  }

  /** An input range and an output range of the same length, at least two knots. */
  predicate WellFormed(xs: seq<real>, ys: seq<real>) {
    |xs| == |ys| >= 2 && StrictlyIncreasing(xs)
  }

  function Min(a: real, b: real): real { if a <= b then a else b }
  function Max(a: real, b: real): real { if a <= b then b else a }

  /** Smallest and largest value of a non-empty output range. */
  function Lowest(ys: seq<real>): (m: real)
    requires |ys| > 0
    ensures forall i :: 0 <= i < |ys| ==> m <= ys[i]
  {
    if |ys| == 1 then ys[0]
    else
      var rest := Lowest(ys[1..]);
      assert forall i :: 1 <= i < |ys| ==> ys[1..][i - 1] == ys[i];
      Min(ys[0], rest)
  }

  function Highest(ys: seq<real>): (m: real)
    requires |ys| > 0
    ensures forall i :: 0 <= i < |ys| ==> ys[i] <= m
  {
    if |ys| == 1 then ys[0]
    else
      var rest := Highest(ys[1..]);
      assert forall i :: 1 <= i < |ys| ==> ys[1..][i - 1] == ys[i];
      Max(ys[0], rest)
  }

  /** The straight line through (x0, y0) and (x1, y1), evaluated at x. */
  function Lerp(x: real, x0: real, x1: real, y0: real, y1: real): (r: real)
    requires x0 < x1
    ensures x0 <= x <= x1 ==> Min(y0, y1) <= r <= Max(y0, y1)
    ensures x == x0 ==> r == y0
    ensures x == x1 ==> r == y1
  {
    var t := (x - x0) / (x1 - x0);
    LerpFraction(x, x0, x1);
    StepBetween(t, y0, y1);
    y0 + t * (y1 - y0)
  }

  lemma LerpFraction(x: real, x0: real, x1: real)
    requires x0 < x1
    ensures x0 <= x <= x1 ==> 0.0 <= (x - x0) / (x1 - x0) <= 1.0
    ensures x == x0 ==> (x - x0) / (x1 - x0) == 0.0
    ensures x == x1 ==> (x - x0) / (x1 - x0) == 1.0
  {
    var d := x1 - x0;
    var t := (x - x0) / d;
    assert t * d == x - x0;
    if t < 0.0 {
      assert t * d < 0.0;
    }
    if t > 1.0 {
      assert (t - 1.0) * d > 0.0;
    }
    if x == x1 {
      assert d / d == 1.0;
    }
  }

  /** A fraction t of the way from y0 to y1 stays between them. */
  lemma StepBetween(t: real, y0: real, y1: real)
    ensures 0.0 <= t <= 1.0 ==> Min(y0, y1) <= y0 + t * (y1 - y0) <= Max(y0, y1)
  {
    if 0.0 <= t <= 1.0 {
      var d := y1 - y0;
      if d >= 0.0 {
        assert 0.0 <= t * d && (1.0 - t) * d >= 0.0;
      } else {
        assert t * d <= 0.0 && (1.0 - t) * d <= 0.0;
      }
    }
  }

  /** Clamped interpolation of x over the input range xs onto the output range ys.
      The result never leaves the span of the output range. */
  function Interpolate(x: real, xs: seq<real>, ys: seq<real>): (r: real)
    requires WellFormed(xs, ys)
    ensures Lowest(ys) <= r <= Highest(ys)
    decreases |xs|
  {
    if x <= xs[0] then ys[0]
    else if x >= xs[|xs| - 1] then ys[|ys| - 1]
    else if x <= xs[1] then Lerp(x, xs[0], xs[1], ys[0], ys[1])
    else
      assert |xs| > 2;
      var r := Interpolate(x, xs[1..], ys[1..]);
      assert forall i :: 0 <= i < |ys[1..]| ==> ys[1..][i] == ys[i + 1];
      r
  }

  /** At every knot the interpolation yields exactly that knot's output. */
  lemma {:induction false} InterpolateAtKnot(xs: seq<real>, ys: seq<real>, k: nat)
    requires WellFormed(xs, ys) && k < |xs|
    ensures Interpolate(xs[k], xs, ys) == ys[k]
    decreases |xs|
  {
    var last := |xs| - 1;
    if k == 0 || k == last {
    } else if k == 1 {
      assert xs[0] < xs[1] < xs[last];
    } else {
      assert xs[0] < xs[1] < xs[k] < xs[last];
      assert WellFormed(xs[1..], ys[1..]);
      InterpolateAtKnot(xs[1..], ys[1..], k - 1);
    }
  }

  // ---------------------------------------------------------------------------
  // The two knot layouts the card uses, in closed form

  /** How far x has travelled through the left half [-w/2, 0] and through the
      right half [0, w/2] of the input range, in terms of the ratio x / w. */
  lemma LeftHalfFraction(x: real, w: Width)
    ensures (x - -(w / 2.0)) / (0.0 - -(w / 2.0)) == 2.0 * (x / w) + 1.0
  {
    var h := w / 2.0;
    var r := x / w;
    assert r * w == x;
    var q := (x - -h) / (0.0 - -h);
    assert q * h == x + h;
    Arith.ZeroFactor(q - (2.0 * r + 1.0), h);
  }

  lemma RightHalfFraction(x: real, w: Width)
    ensures (x - 0.0) / (w / 2.0 - 0.0) == 2.0 * (x / w)
  {
    var h := w / 2.0;
    var r := x / w;
    assert r * w == x;
    var p := (x - 0.0) / (h - 0.0);
    assert p * h == x;
    Arith.ZeroFactor(p - 2.0 * r, h);
  }

  /** Interpolation over the knots [-w/2, 0, w/2]. */
  lemma {:induction false} CentredKnots(x: real, w: Width, a: real, b: real, c: real)
    ensures var h := w / 2.0;
      Interpolate(x, [-h, 0.0, h], [a, b, c]) ==
        if x <= -h then a
        else if x >= h then c
        else if x <= 0.0 then a + (2.0 * (x / w) + 1.0) * (b - a)
        else b + 2.0 * (x / w) * (c - b)
  {
    var h := w / 2.0;
    if -h < x <= 0.0 {
      CentredLeft(x, w, a, b, c);
    } else if 0.0 < x < h {
      CentredRight(x, w, a, b, c);
    }
  }

  lemma CentredLeft(x: real, w: Width, a: real, b: real, c: real)
    requires -(w / 2.0) < x <= 0.0
    ensures var h := w / 2.0;
      Interpolate(x, [-h, 0.0, h], [a, b, c]) == a + (2.0 * (x / w) + 1.0) * (b - a)
  {
    var h := w / 2.0;
    assert Interpolate(x, [-h, 0.0, h], [a, b, c]) == Lerp(x, -h, 0.0, a, b);
    LeftHalfFraction(x, w);
  }

  lemma CentredRight(x: real, w: Width, a: real, b: real, c: real)
    requires 0.0 < x < w / 2.0
    ensures var h := w / 2.0;
      Interpolate(x, [-h, 0.0, h], [a, b, c]) == b + 2.0 * (x / w) * (c - b)
  {
    var h := w / 2.0;
    PastFirstKnot(x, h, a, b, c);
    assert Interpolate(x, [0.0, h], [b, c]) == Lerp(x, 0.0, h, b, c);
    RightHalfFraction(x, w);
  }

  /** Past the middle knot only the right-hand segment matters. */
  lemma PastFirstKnot(x: real, h: real, a: real, b: real, c: real)
    requires 0.0 < x < h
    ensures Interpolate(x, [-h, 0.0, h], [a, b, c]) == Interpolate(x, [0.0, h], [b, c])
  {
    assert [-h, 0.0, h][1..] == [0.0, h] && [a, b, c][1..] == [b, c];
  }

  /** Interpolation of a non-negative y over the knots [0, w/2]. */
  lemma {:induction false} HalfWidthKnots(y: real, w: Width, a: real, b: real)
    requires y >= 0.0
    ensures var h := w / 2.0;
      Interpolate(y, [0.0, h], [a, b]) == if y >= h then b else a + 2.0 * (y / w) * (b - a)
  {
    RightHalfFraction(y, w);
  }
}
