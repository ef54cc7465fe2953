/** Truncation bounds from raster statistics, and the truncated linear
    transfer used to turn a raster into a score. */
module Rescale {
  import opened Grids

  /** Statistics of a raster (over the cells its mask selects), as the raster
      engine reports them. */
  datatype Stats = Stats(min: real, max: real, mean: real, sd: real)

  /** Default number of standard deviations for the cut-offs. */
  const DefaultNumSD: real := 3.0

  function Max(a: real, b: real): real { if a >= b then a else b }
  function Min(a: real, b: real): real { if a <= b then a else b }

  /** Truncation toward zero, as Python's int() and the raster engine's Int
      do it. */
  function TruncInt(x: real): (n: int)
    ensures 0.0 <= x ==> n as real <= x < n as real + 1.0
    ensures x < 0.0 ==> n as real - 1.0 < x <= n as real
  {
    if 0.0 <= x then x.Floor else -((-x).Floor)
  }

  /** Truncation bounds: `numSD` standard deviations either side of the mean,
      kept inside the data range. */
  function TruncVals(s: Stats, numSD: real): (b: (real, real))
    ensures s.min <= b.0 && b.1 <= s.max
    ensures s.mean - numSD * s.sd <= b.0 && b.1 <= s.mean + numSD * s.sd
    ensures b.0 == s.min || b.0 == s.mean - numSD * s.sd
    ensures b.1 == s.max || b.1 == s.mean + numSD * s.sd
    ensures s.min <= s.mean <= s.max && 0.0 <= s.sd && 0.0 <= numSD ==> b.0 <= b.1
  {
    (Max(s.min, s.mean - numSD * s.sd), Min(s.max, s.mean + numSD * s.sd))
  }

  /** `v` lies between `a` and `b`, whichever way round they are. */
  predicate Between(v: real, a: real, b: real) {
    Min(a, b) <= v <= Max(a, b)
  }

  /** The truncated linear transfer function (lower threshold `lo`, upper
      threshold `hi`) rescaled from `fromScale` to `toScale`: `fromScale` at
      or below `lo`, `toScale` at or above `hi`, proportional in between. */
  function LinearRescale(v: real, lo: real, hi: real, fromScale: real, toScale: real): (r: real)
    ensures v <= lo ==> r == fromScale
    ensures lo < v && hi <= v ==> r == toScale
    ensures Between(r, fromScale, toScale)
    ensures lo < v < hi ==> (r - fromScale) * (hi - lo) == (toScale - fromScale) * (v - lo)
  {
    if v <= lo then fromScale
    else if v >= hi then toScale
    else
      var t := (v - lo) / (hi - lo);
      FractionInUnit(v - lo, hi - lo);
      InterpolationBetween(fromScale, toScale, t);
      fromScale + (toScale - fromScale) * t
  }

  /** With an increasing scale the rescale is monotone, and with a decreasing
      scale it is antitone. */
  lemma RescaleMonotone(v: real, w: real, lo: real, hi: real, fromScale: real, toScale: real)
    requires v <= w
    ensures fromScale <= toScale ==> LinearRescale(v, lo, hi, fromScale, toScale) <= LinearRescale(w, lo, hi, fromScale, toScale)
    ensures toScale <= fromScale ==> LinearRescale(w, lo, hi, fromScale, toScale) <= LinearRescale(v, lo, hi, fromScale, toScale)
  {
    var rv := LinearRescale(v, lo, hi, fromScale, toScale);
    var rw := LinearRescale(w, lo, hi, fromScale, toScale);
    if lo < v < hi && lo < w < hi {
      var tv := (v - lo) / (hi - lo);
      var tw := (w - lo) / (hi - lo);
      DivMonotone(v - lo, w - lo, hi - lo);
      var k := toScale - fromScale;
      assert rv == fromScale + k * tv;
      assert rw == fromScale + k * tw;
      MulMonotone(k, tv, tw);
      assert 0.0 <= k ==> rv <= rw;
    }
  }

  lemma FractionInUnit(x: real, d: real)
    requires 0.0 < x < d
    ensures 0.0 < x / d < 1.0
  {
    var q := x / d;
    assert q * d == x;
    if q >= 1.0 {
      MulMonotone(d, 1.0, q);
      assert false;
    }
    if q <= 0.0 {
      MulMonotone(d, q, 0.0);
      assert false;
    }
  }

  lemma InterpolationBetween(a: real, b: real, t: real)
    requires 0.0 < t < 1.0
    ensures Between(a + (b - a) * t, a, b)
  {
    var p := FractionOf(b - a, t);
    if a <= b {
      assert a <= a + p <= b;
    } else {
      assert b <= a + p <= a;
    }
  }

  /** A fraction t in (0, 1) of k lies between 0 and k. */
  lemma FractionOf(k: real, t: real) returns (p: real)
    requires 0.0 < t < 1.0
    ensures p == k * t
    ensures 0.0 <= k ==> 0.0 <= p <= k
    ensures k <= 0.0 ==> k <= p <= 0.0
  {
    p := k * t;
    MulMonotone(k, 0.0, t);
    MulMonotone(k, t, 1.0);
    assert k * 0.0 == 0.0 && k * 1.0 == k;
  }

  lemma DivMonotone(x: real, y: real, d: real)
    requires x <= y && 0.0 < d
    ensures x / d <= y / d
  {
    assert y / d - x / d == (y - x) / d;
  }

  lemma MulMonotone(k: real, x: real, y: real)
    requires x <= y
    ensures 0.0 <= k ==> k * x <= k * y
    ensures k <= 0.0 ==> k * y <= k * x
  {
    assert k * y - k * x == k * (y - x);
  }

  lemma MulCancel(x: real, y: real, d: real)
    requires d != 0.0 && x * d == y * d
    ensures x == y
  {
    assert (x - y) * d == 0.0;
  }

  lemma MulDivCancel(k: real, d: real)
    requires d != 0.0
    ensures k * d / d == k
  {
    var q := k * d / d;
    assert q * d == k * d;
    MulCancel(q, k, d);
  }

  /** The linear part meets the two constant parts: it is `fromScale` at `lo`
      and `toScale` at `hi`, so the rescale has no jump at either threshold. */
  lemma RescaleContinuous(lo: real, hi: real, fromScale: real, toScale: real)
    requires lo < hi
    ensures fromScale + (toScale - fromScale) * ((lo - lo) / (hi - lo)) == LinearRescale(lo, lo, hi, fromScale, toScale)
    ensures fromScale + (toScale - fromScale) * ((hi - lo) / (hi - lo)) == LinearRescale(hi, lo, hi, fromScale, toScale)
  {
  }

  /** RescaleByFunction applied to a raster: NoData cells stay NoData. */
  function RescaleGrid(g: Grid, lo: real, hi: real, fromScale: real, toScale: real): (r: Grid)
    ensures |r| == |g|
    ensures forall i :: 0 <= i < |g| ==> (r[i].Some? <==> g[i].Some?)
    ensures forall i :: 0 <= i < |g| && g[i].Some? ==>
              r[i].value == LinearRescale(g[i].value, lo, hi, fromScale, toScale) &&
              Between(r[i].value, fromScale, toScale)
  {
    seq(|g|, i requires 0 <= i < |g| =>
      match g[i]
      case None => None
      case Some(v) => Some(LinearRescale(v, lo, hi, fromScale, toScale)))
  }
}
