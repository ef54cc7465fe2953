/** Event runoff by the SCS curve-number method (Technical Release 55,
    chapter 2): maximum retention S from the curve number (equation 2-4),
    runoff depth Q from rainfall P with the initial abstraction 0.2 S
    (equations 2-1 and 2-3), and the optional runoff volume. Depths are in
    inches. */
module Runoff {
  import opened Grids
  import CurveNumber
  import Rescale

  // ---------------------------------------------------------------------------
  // Maximum retention

  /** S for one curve-number cell: 1000 where CN is 0 (the division guard),
      1000/CN - 10 elsewhere, NoData where CN is NoData. */
  function RetentionCell(cn: Cell): (s: Cell)
    ensures s.Some? <==> cn.Some?
    ensures cn == Some(0.0) ==> s == Some(1000.0)
  {
    match cn
    case None => None
    case Some(c) => if c == 0.0 then Some(1000.0) else Some(1000.0 / c - 10.0)
  }

  /** Away from the guard the retention inverts the curve-number formula:
      CN = 1000 / (S + 10). */
  lemma RetentionInverse(c: real)
    requires c != 0.0
    ensures RetentionCell(Some(c)).value + 10.0 != 0.0
    ensures c == 1000.0 / (RetentionCell(Some(c)).value + 10.0)
  {
    var s := RetentionCell(Some(c)).value;
    assert s + 10.0 == 1000.0 / c;
    assert (1000.0 / c) * c == 1000.0;
  }

  /** CN = 80 gives S = 2.5 and CN = 100 gives S = 0. */
  lemma RetentionExamples()
    ensures RetentionCell(Some(80.0)) == Some(2.5)
    ensures RetentionCell(Some(100.0)) == Some(0.0)
  {
  }

  /** A larger curve number retains strictly less. */
  lemma RetentionDecreasing(c1: real, c2: real)
    requires 0.0 < c1 < c2
    ensures RetentionCell(Some(c2)).value < RetentionCell(Some(c1)).value
  {
    var q1 := 1000.0 / c1;
    var q2 := 1000.0 / c2;
    assert q1 * c1 == 1000.0 && q2 * c2 == 1000.0;
    if q2 >= q1 {
      Rescale.MulMonotone(q1, c1, c2);
      Rescale.MulMonotone(c2, q1, q2);
      assert false;
    }
  }

  /** Curve numbers in (0, 100] have a non-negative retention. */
  lemma RetentionNonNegative(c: real)
    requires 0.0 < c <= 100.0
    ensures 0.0 <= RetentionCell(Some(c)).value
  {
    var q := 1000.0 / c;
    assert q * c == 1000.0;
    if q < 10.0 {
      Rescale.MulMonotone(q, c, 100.0);
      Rescale.MulMonotone(100.0, q, 10.0);
      assert false;
    }
  }

  // ---------------------------------------------------------------------------
  // Runoff depth

  /** The SCS runoff equation for rainfall `p` and retention `s`: no runoff
      until the rainfall exceeds the initial abstraction 0.2 S, then
      (P - 0.2 S)^2 / (P + 0.8 S). A zero denominator (possible only with a
      negative S) gives NoData. */
  function ScsRunoff(p: real, s: real): (q: Cell)
    ensures p - 0.2 * s <= 0.0 ==> q == Some(0.0)
    ensures q.None? <==> p - 0.2 * s > 0.0 && p + 0.8 * s == 0.0
    ensures q.Some? && p - 0.2 * s > 0.0 ==>
              q.value * (p + 0.8 * s) == (p - 0.2 * s) * (p - 0.2 * s)
  {
    if p - 0.2 * s > 0.0 then
      (if p + 0.8 * s == 0.0 then None
       else Some((p - 0.2 * s) * (p - 0.2 * s) / (p + 0.8 * s)))
    else Some(0.0)
  }

  /** With a non-negative retention the runoff is defined, is never negative,
      is positive exactly when the rainfall exceeds the initial abstraction,
      and never exceeds the rainfall left after the initial abstraction (so
      never the rainfall itself). */
  lemma ScsRunoffBounds(p: real, s: real)
    requires 0.0 <= s
    ensures ScsRunoff(p, s).Some?
    ensures 0.0 <= ScsRunoff(p, s).value
    ensures 0.0 < ScsRunoff(p, s).value <==> p - 0.2 * s > 0.0
    ensures p - 0.2 * s > 0.0 ==> ScsRunoff(p, s).value <= p - 0.2 * s
    ensures ScsRunoff(p, s).value <= Rescale.Max(p, 0.0)
  {
    var x := p - 0.2 * s;
    if x > 0.0 {
      assert p + 0.8 * s == x + s;
      SquareOverAtMost(x, x + s);
    }
  }

  /** 0 < x <= d gives 0 < x^2/d <= x. */
  lemma SquareOverAtMost(x: real, d: real)
    requires 0.0 < x <= d
    ensures 0.0 < x * x / d <= x
  {
    ProductOverAtMost(x, x, d);
  }

  /** 0 < x <= d and 0 < y give 0 < x y / d <= y. */
  lemma ProductOverAtMost(x: real, y: real, d: real)
    requires 0.0 < x <= d && 0.0 < y
    ensures 0.0 < x * y / d <= y
  {
    PositiveProduct(x, y);
    DivPositive(x * y, d);
    Rescale.MulMonotone(y, x, d);
    assert x * y == y * x && y * d == d * y;
    Rescale.DivMonotone(x * y, d * y, d);
    Rescale.MulDivCancel(y, d);
  }

  lemma DivPositive(a: real, d: real)
    requires 0.0 < a && 0.0 < d
    ensures 0.0 < a / d
  {
    var q := a / d;
    assert q * d == a;
    if q <= 0.0 {
      Rescale.MulMonotone(d, q, 0.0);
      assert false;
    }
  }

  /** More rain never gives less runoff, and above the initial abstraction
      strictly more. */
  lemma ScsRunoffMonotone(p1: real, p2: real, s: real)
    requires 0.0 <= s && p1 <= p2
    ensures ScsRunoff(p1, s).value <= ScsRunoff(p2, s).value
    ensures p1 < p2 && p2 - 0.2 * s > 0.0 ==> ScsRunoff(p1, s).value < ScsRunoff(p2, s).value
  {
    ScsRunoffBounds(p1, s);
    ScsRunoffBounds(p2, s);
    var x1 := p1 - 0.2 * s;
    var x2 := p2 - 0.2 * s;
    if x1 > 0.0 && p1 < p2 {
      assert x1 < x2;
      assert p1 + 0.8 * s == x1 + s && p2 + 0.8 * s == x2 + s;
      assert ScsRunoff(p1, s).value == x1 * x1 / (x1 + s);
      assert ScsRunoff(p2, s).value == x2 * x2 / (x2 + s);
      SquareOverIncreasing(x1, x2, s);
    } else if x1 <= 0.0 {
      assert ScsRunoff(p1, s).value == 0.0;
    }
  }

  /** x^2/(x + S) is strictly increasing for x > 0 and S >= 0. */
  lemma SquareOverIncreasing(x1: real, x2: real, s: real)
    requires 0.0 < x1 < x2 && 0.0 <= s
    ensures x1 * x1 / (x1 + s) < x2 * x2 / (x2 + s)
  {
    var d1 := x1 + s;
    var d2 := x2 + s;
    var a := x1 * x1;
    var c := x2 * x2;
    var k := x1 * x2 + s * (x1 + x2);
    CrossDifference(x1, x2, s);
    PositiveProduct(x1, x2);
    Rescale.MulMonotone(s, 0.0, x1 + x2);
    assert 0.0 < k;
    PositiveProduct(x2 - x1, k);
    assert a * d2 < c * d1;
    CrossMultiplyLess(a, d1, c, d2);
  }

  /** x2^2 (x1 + S) - x1^2 (x2 + S) factors as (x2 - x1)(x1 x2 + S (x1 + x2)). */
  lemma CrossDifference(x1: real, x2: real, s: real)
    ensures x2 * x2 * (x1 + s) - x1 * x1 * (x2 + s) == (x2 - x1) * (x1 * x2 + s * (x1 + x2))
  {
    assert x2 * x2 * (x1 + s) == x2 * x2 * x1 + x2 * x2 * s;
    assert x1 * x1 * (x2 + s) == x1 * x1 * x2 + x1 * x1 * s;
    assert (x2 - x1) * (x1 * x2 + s * (x1 + x2)) == (x2 - x1) * (x1 * x2) + (x2 - x1) * (s * (x1 + x2));
  }

  lemma MulStrict(k: real, x: real, y: real)
    requires 0.0 < k && x < y
    ensures k * x < k * y
  {
    assert k * y - k * x == k * (y - x);
    PositiveProduct(k, y - x);
  }

  lemma PositiveProduct(u: real, v: real)
    requires 0.0 < u && 0.0 < v
    ensures 0.0 < u * v
  {
  }

  /** a/b < c/d when b, d > 0 and a d < c b. */
  lemma CrossMultiplyLess(a: real, b: real, c: real, d: real)
    requires 0.0 < b && 0.0 < d && a * d < c * b
    ensures a / b < c / d
  {
    var p := a / b;
    var q := c / d;
    assert p * b == a && q * d == c;
    assert p * b * d < q * d * b;
    if p >= q {
      Rescale.MulMonotone(b * d, q, p);
      assert false;
    }
  }

  /** Runoff depth at one cell from the curve number and the (converted)
      rainfall: NoData where CN is NoData; 0 where CN is 0, whatever the
      rainfall; elsewhere the SCS equation with S from the curve number,
      NoData where the rainfall is NoData. */
  function RunoffCell(cn: Cell, rain: Cell): (q: Cell)
    ensures cn.None? ==> q.None?
    ensures cn == Some(0.0) ==> q == Some(0.0)
    ensures cn.Some? && cn.value != 0.0 && rain.None? ==> q.None?
    ensures cn.Some? && cn.value != 0.0 && rain.Some? ==>
              q == ScsRunoff(rain.value, RetentionCell(cn).value)
  {
    match cn
    case None => None
    case Some(c) =>
      if c == 0.0 then Some(0.0)
      else
        match rain
        case None => None
        case Some(p) => ScsRunoff(p, RetentionCell(cn).value)
  }

  /** For curve numbers in [0, 100] the depth is NoData only where an input
      is (the rainfall only matters where CN is not 0), and otherwise lies
      between 0 and the rainfall. */
  lemma RunoffCellBounds(cn: Cell, rain: Cell)
    requires cn.Some? ==> 0.0 <= cn.value <= 100.0
    ensures RunoffCell(cn, rain).Some? <==> cn.Some? && (cn.value == 0.0 || rain.Some?)
    ensures RunoffCell(cn, rain).Some? ==> 0.0 <= RunoffCell(cn, rain).value
    ensures RunoffCell(cn, rain).Some? && rain.Some? ==>
              RunoffCell(cn, rain).value <= Rescale.Max(rain.value, 0.0)
  {
    if cn.Some? && cn.value != 0.0 {
      RetentionNonNegative(cn.value);
      if rain.Some? {
        ScsRunoffBounds(rain.value, RetentionCell(cn).value);
      }
    }
  }

  /** With CN = 100 (no retention) all rain runs off: 2 inches give 2. */
  lemma FullRunoff()
    ensures RunoffCell(Some(100.0), Some(2.0)) == Some(2.0)
  {
    assert RetentionCell(Some(100.0)) == Some(0.0);
  }

  /** Open water (land-cover class 11) gets curve number 0 in every soil
      group and so produces no runoff. */
  lemma OpenWaterNoRunoff(hg: Cell, rain: Cell)
    requires CurveNumber.CurveNumberCell(Some(11), hg).Some?
    ensures RunoffCell(CurveNumber.CurveNumberCell(Some(11), hg), rain) == Some(0.0)
  {
    var g := CurveNumber.GroupOf(hg.value).value;
    CurveNumber.NoRunoffClasses(g, 11);
  }

  // ---------------------------------------------------------------------------
  // Rainfall conversion and volume

  /** The rainfall at a cell after the unit conversion: multiplied by
      `convFact` unless that is 1. */
  function RainCell(rain: Field, convFact: real, i: nat): (r: Cell)
    requires rain.Raster? ==> i < |rain.g|
    ensures r == Scale(convFact, FieldAt(rain, i))
  {
    if convFact != 1.0 then Scale(convFact, FieldAt(rain, i)) else FieldAt(rain, i)
  }

  /** 2.54 cm per inch times 0.001 litres per cubic cm: litres per inch of
      depth over one square centimetre, times the cell area. */
  function VolumeFactor(cellArea: real): (f: real)
    ensures cellArea == 1000000.0 ==> f == 2540.0
  {
    0.00254 * cellArea
  }

  const DefaultCellArea: real := 1000000.0
  const DefaultConvFact: real := 1.0

  // ---------------------------------------------------------------------------
  // eventRunoff

  /** The rasters eventRunoff saves: the retention (curve-number input only),
      the runoff depth, and the runoff volume when asked for. */
  datatype RunoffOutputs = RunoffOutputs(retention: Option<Grid>, depth: Grid, volume: Option<Grid>)

  datatype RunoffError = UnboundCurveNumber

  /** The outputs once the retention raster is known. */
  function RunoffOutputsOf(cn: Grid, retention: Option<Grid>, rain: Field, cellArea: real, convFact: real, vol: int): (o: RunoffOutputs)
    requires FitsGrid(rain, |cn|)
    ensures o.retention == retention
    ensures |o.depth| == |cn|
    ensures forall i :: 0 <= i < |cn| ==> o.depth[i] == RunoffCell(cn[i], RainCell(rain, convFact, i))
    ensures o.volume.Some? <==> vol == 1
    ensures o.volume.Some? ==> (|o.volume.value| == |cn| &&
              forall i :: 0 <= i < |cn| ==> o.volume.value[i] == Scale(VolumeFactor(cellArea), o.depth[i]))
  {
    var depth := seq(|cn|, i requires 0 <= i < |cn| => RunoffCell(cn[i], RainCell(rain, convFact, i)));
    var volume := if vol == 1 then Some(seq(|cn|, i requires 0 <= i < |cn| => Scale(VolumeFactor(cellArea), depth[i]))) else None;
    RunoffOutputs(retention, depth, volume)
  }

  /** eventRunoff as written: with inputType "CN" the retention and depth
      rasters (and the volume when vol is 1); with any other inputType the
      depth expression refers to the curve-number raster, which is bound
      only on the "CN" path, so the call fails. */
  function EventRunoff(inRaster: Grid, rain: Field, cellArea: real, inputType: string, convFact: real, vol: int): (r: Result<RunoffOutputs, RunoffError>)
    requires FitsGrid(rain, |inRaster|)
    ensures r.Err? <==> inputType != "CN"
    ensures r.Ok? ==> (r.value.retention.Some? && |r.value.retention.value| == |inRaster| &&
              forall i :: 0 <= i < |inRaster| ==> r.value.retention.value[i] == RetentionCell(inRaster[i]))
    ensures r.Ok? ==> r.value == RunoffOutputsOf(inRaster, r.value.retention, rain, cellArea, convFact, vol)
  {
    if inputType == "CN" then
      var retention := seq(|inRaster|, i requires 0 <= i < |inRaster| => RetentionCell(inRaster[i]));
      Ok(RunoffOutputsOf(inRaster, Some(retention), rain, cellArea, convFact, vol))
    else Err(UnboundCurveNumber)
  }

  /** The depth of a cell when the input raster already holds the retention:
      the SCS equation with that S. */
  function RunoffFromRetentionCell(ret: Cell, rain: Cell): (q: Cell)
    ensures ret.None? || rain.None? ==> q.None?
    ensures ret.Some? && rain.Some? ==> q == ScsRunoff(rain.value, ret.value)
  {
    match (ret, rain)
    case (Some(s), Some(p)) => ScsRunoff(p, s)
    case _ => None
  }

  /** eventRunoff as evidently intended: the "CN" path as written, and on the
      retention path the depth computed from the given retention raster. */
  function EventRunoffCorrected(inRaster: Grid, rain: Field, cellArea: real, inputType: string, convFact: real, vol: int): (r: RunoffOutputs)
    requires FitsGrid(rain, |inRaster|)
    ensures inputType == "CN" ==> Ok(r) == EventRunoff(inRaster, rain, cellArea, inputType, convFact, vol)
    ensures inputType != "CN" ==> (r.retention.None? && |r.depth| == |inRaster| &&
              forall i :: 0 <= i < |inRaster| ==>
                r.depth[i] == RunoffFromRetentionCell(inRaster[i], RainCell(rain, convFact, i)))
    ensures r.volume.Some? <==> vol == 1
    ensures r.volume.Some? ==> (|r.volume.value| == |inRaster| &&
              forall i :: 0 <= i < |inRaster| ==> r.volume.value[i] == Scale(VolumeFactor(cellArea), r.depth[i]))
  {
    match EventRunoff(inRaster, rain, cellArea, inputType, convFact, vol)
    case Ok(o) => o
    case Err(_) =>
      var depth := seq(|inRaster|, i requires 0 <= i < |inRaster| =>
        RunoffFromRetentionCell(inRaster[i], RainCell(rain, convFact, i)));
      var volume := if vol == 1 then Some(seq(|inRaster|, i requires 0 <= i < |inRaster| => Scale(VolumeFactor(cellArea), depth[i]))) else None;
      RunoffOutputs(None, depth, volume)
  }

  /** The as-written retention path never produces a depth raster. */
  lemma RetentionPathFails(inRaster: Grid, rain: Field)
    requires FitsGrid(rain, |inRaster|)
    ensures EventRunoff(inRaster, rain, DefaultCellArea, "RET", DefaultConvFact, 0).Err?
  {
  }

  /** The two corrected paths agree: feeding the retention raster computed
      from the curve numbers back in as a retention input gives the same
      depth at every cell whose curve number is not 0, and at a CN-0 cell
      whenever the rainfall is at most 200 inches. */
  lemma RetentionPathAgrees(cn: Cell, rain: Cell)
    requires cn.Some? && rain.Some?
    requires cn.value != 0.0 || rain.value <= 200.0
    ensures RunoffFromRetentionCell(RetentionCell(cn), rain) == RunoffCell(cn, rain)
  {
  }

  /** On whole rasters: the corrected retention path applied to the retention
      raster of the curve-number path reproduces its depth raster wherever the
      curve number is not 0. */
  lemma EventRunoffPathsAgree(cn: Grid, rain: Field, cellArea: real, convFact: real, vol: int)
    requires FitsGrid(rain, |cn|)
    ensures var viaCN := EventRunoff(cn, rain, cellArea, "CN", convFact, vol).value;
            var viaRet := EventRunoffCorrected(viaCN.retention.value, rain, cellArea, "RET", convFact, vol);
            forall i :: 0 <= i < |cn| && cn[i].Some? && cn[i].value != 0.0 ==>
              viaRet.depth[i] == viaCN.depth[i]
  {
    var viaCN := EventRunoff(cn, rain, cellArea, "CN", convFact, vol).value;
    var viaRet := EventRunoffCorrected(viaCN.retention.value, rain, cellArea, "RET", convFact, vol);
    forall i | 0 <= i < |cn| && cn[i].Some? && cn[i].value != 0.0
      ensures viaRet.depth[i] == viaCN.depth[i]
    {
      var p := RainCell(rain, convFact, i);
      if p.Some? {
        RetentionPathAgrees(cn[i], p);
      }
    }
  }
}
