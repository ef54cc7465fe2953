/** Slope transformations (SlopeTrans) and the R*K*S*C soil-loss product
    (soilLoss_RKSC).

    The trigonometry the source evaluates in floating point is supplied from
    outside: the percent-grade equivalents of the 1 and 30 degree thresholds,
    the degree equivalent of the 9 percent inflection, and the sine of the
    slope angle as a function of the slope value in each unit. */
module Slope {
  import opened Grids
  import Rescale

  // ---------------------------------------------------------------------------
  // Parameter checks

  datatype SlopeUnit = Degrees | Percent

  /** The accepted input types: slope in degrees, slope in percent grade, or
      elevation (from which a percent-grade slope is derived). */
  datatype InputType = DegreesInput | PercentInput | ElevationInput

  datatype Transform = TruncLin | TruncSin | Rusle

  datatype SlopeError = InvalidInputType | InvalidTransform | UnboundSlope

  function ParseInputType(s: string): (r: Option<InputType>)
    ensures r == Some(DegreesInput) <==> s == "DEG" || s == "DEGREES"
    ensures r == Some(PercentInput) <==> s == "PERC" || s == "PERCENT"
    ensures r == Some(ElevationInput) <==> s == "ELEV" || s == "ELEVATION"
  {
    if s == "DEG" || s == "DEGREES" then Some(DegreesInput)
    else if s == "PERC" || s == "PERCENT" then Some(PercentInput)
    else if s == "ELEV" || s == "ELEVATION" then Some(ElevationInput)
    else None
  }

  function ParseTransform(s: string): (r: Option<Transform>)
    ensures r == Some(TruncLin) <==> s == "TRUNCLIN"
    ensures r == Some(TruncSin) <==> s == "TRUNCSIN"
    ensures r == Some(Rusle) <==> s == "RUSLE"
  {
    if s == "TRUNCLIN" then Some(TruncLin)
    else if s == "TRUNCSIN" then Some(TruncSin)
    else if s == "RUSLE" then Some(Rusle)
    else None
  }

  /** The unit the transformation works in: elevation input gives a slope in
      percent grade. */
  function UnitOf(t: InputType): (u: SlopeUnit)
    ensures u == Degrees <==> t == DegreesInput
  {
    match t
    case DegreesInput => Degrees
    case PercentInput => Percent
    case ElevationInput => Percent
  }

  // ---------------------------------------------------------------------------
  // TRUNCLIN

  const MinSlopeDegrees: real := 1.0
  const MaxSlopeDegrees: real := 30.0

  /** The truncated linear slope score: 0 at or below `minSlope`, 100 above
      `maxSlope`, 100 (s - minSlope) / (maxSlope - minSlope) in between. */
  function TruncLinScore(s: real, minSlope: real, maxSlope: real): (r: real)
    ensures s <= minSlope ==> r == 0.0
    ensures minSlope < s && maxSlope < s ==> r == 100.0
    ensures minSlope < s <= maxSlope ==> r * (maxSlope - minSlope) == 100.0 * (s - minSlope)
  {
    if s <= minSlope then 0.0
    else if s > maxSlope then 100.0
    else 100.0 * (s - minSlope) / (maxSlope - minSlope)
  }

  /** With ordered thresholds the score is the truncated linear rescale from
      0 to 100 between them. */
  lemma TruncLinIsRescale(s: real, minSlope: real, maxSlope: real)
    requires minSlope < maxSlope
    ensures TruncLinScore(s, minSlope, maxSlope) == Rescale.LinearRescale(s, minSlope, maxSlope, 0.0, 100.0)
  {
    var r := TruncLinScore(s, minSlope, maxSlope);
    var l := Rescale.LinearRescale(s, minSlope, maxSlope, 0.0, 100.0);
    if minSlope < s < maxSlope {
      assert l * (maxSlope - minSlope) == 100.0 * (s - minSlope);
      Rescale.MulCancel(r, l, maxSlope - minSlope);
    }
  }

  /** The score always lies in [0, 100], whatever the thresholds. */
  lemma TruncLinRange(s: real, minSlope: real, maxSlope: real)
    ensures 0.0 <= TruncLinScore(s, minSlope, maxSlope) <= 100.0
  {
    if minSlope < maxSlope {
      TruncLinIsRescale(s, minSlope, maxSlope);
    }
  }

  /** A steeper cell never scores lower. */
  lemma TruncLinMonotone(s: real, t: real, minSlope: real, maxSlope: real)
    requires s <= t
    ensures TruncLinScore(s, minSlope, maxSlope) <= TruncLinScore(t, minSlope, maxSlope)
  {
    TruncLinRange(s, minSlope, maxSlope);
    TruncLinRange(t, minSlope, maxSlope);
    if minSlope < maxSlope {
      TruncLinIsRescale(s, minSlope, maxSlope);
      TruncLinIsRescale(t, minSlope, maxSlope);
      Rescale.RescaleMonotone(s, t, minSlope, maxSlope, 0.0, 100.0);
    }
  }

  /** No jump at either threshold: 0 at and below `minSlope`, the linear
      formula in between (which is 0 at `minSlope`), and already 100 at
      `maxSlope`, the value of the constant part above it. */
  lemma TruncLinContinuous(minSlope: real, maxSlope: real)
    requires minSlope < maxSlope
    ensures TruncLinScore(minSlope, minSlope, maxSlope) == 0.0
    ensures forall s :: s <= minSlope ==> TruncLinScore(s, minSlope, maxSlope) == 0.0
    ensures forall s :: minSlope < s <= maxSlope ==>
              TruncLinScore(s, minSlope, maxSlope) * (maxSlope - minSlope) == 100.0 * (s - minSlope)
    ensures TruncLinScore(maxSlope, minSlope, maxSlope) == 100.0
    ensures forall s :: s > maxSlope ==> TruncLinScore(s, minSlope, maxSlope) == 100.0
  {
    var r := TruncLinScore(maxSlope, minSlope, maxSlope);
    assert r * (maxSlope - minSlope) == 100.0 * (maxSlope - minSlope);
    Rescale.MulCancel(r, 100.0, maxSlope - minSlope);
  }

  /** In degrees the thresholds are 1 and 30: halfway (15.5 degrees) scores 50. */
  lemma TruncLinDegrees()
    ensures TruncLinScore(1.0, MinSlopeDegrees, MaxSlopeDegrees) == 0.0
    ensures TruncLinScore(15.5, MinSlopeDegrees, MaxSlopeDegrees) == 50.0
    ensures TruncLinScore(30.0, MinSlopeDegrees, MaxSlopeDegrees) == 100.0
  {
  }

  // ---------------------------------------------------------------------------
  // TRUNCSIN and RUSLE, on a given sine of the slope angle

  /** The truncated sine score: 200 sin(angle) rounded half up, capped at 100. */
  function TruncSinScore(sine: real): (r: real)
    ensures r <= 100.0
    ensures 0.0 <= sine < 0.5 ==> r == r.Floor as real && r <= 200.0 * sine + 0.5 < r + 1.0
  {
    Rescale.Min(100.0, Rescale.TruncInt(0.5 + 200.0 * sine) as real)
  }

  /** For a sine in [0, 1] the score is a whole number in [0, 100]; it reaches
      100 once the sine is at least 1/2, that is from 30 degrees on. */
  lemma TruncSinRange(sine: real)
    requires 0.0 <= sine <= 1.0
    ensures 0.0 <= TruncSinScore(sine) <= 100.0
    ensures TruncSinScore(sine) == TruncSinScore(sine).Floor as real
    ensures 0.5 <= sine ==> TruncSinScore(sine) == 100.0
  {
  }

  const RusleInflectPercent: real := 9.0

  /** The RUSLE slope-steepness factor S (equations 4-4 and 4-5 of Agriculture
      Handbook 703): 10.8 sin + 0.03 below the 9 percent inflection,
      16.8 sin - 0.50 from it on. */
  function RusleS(s: real, sine: real, inflect: real): (r: real)
    ensures s < inflect ==> r == 10.8 * sine + 0.03
    ensures inflect <= s ==> r == 16.8 * sine - 0.50
  {
    if s < inflect then 10.8 * sine + 0.03 else 16.8 * sine - 0.50
  }

  /** S never decreases with the slope, provided the sine does and the sine at
      the inflection is at least 0.53/6 (where the steep equation overtakes
      the gentle one). */
  lemma RusleMonotone(s1: real, sine1: real, s2: real, sine2: real, inflect: real)
    requires s1 <= s2 && sine1 <= sine2
    requires s1 < inflect <= s2 ==> 0.53 / 6.0 <= sine2
    ensures RusleS(s1, sine1, inflect) <= RusleS(s2, sine2, inflect)
  {
  }

  // ---------------------------------------------------------------------------
  // SlopeTrans

  /** The floating-point trigonometry, supplied from outside: the percent
      grades of 1 and 30 degrees (100 tan), the degree angle of a 9 percent
      grade (atan), and the sine of the slope angle for a slope value in
      degrees and in percent grade. */
  datatype Trig = Trig(
    percentMin: real, percentMax: real, degreeInflect: real,
    sineOfDegrees: real -> real, sineOfPercent: real -> real)

  function Thresholds(u: SlopeUnit, trig: Trig): (t: (real, real))
    ensures u == Degrees ==> t == (MinSlopeDegrees, MaxSlopeDegrees)
    ensures u == Percent ==> t == (trig.percentMin, trig.percentMax)
  {
    if u == Degrees then (MinSlopeDegrees, MaxSlopeDegrees) else (trig.percentMin, trig.percentMax)
  }

  function Sine(u: SlopeUnit, trig: Trig, s: real): real {
    if u == Degrees then trig.sineOfDegrees(s) else trig.sineOfPercent(s)
  }

  function Inflect(u: SlopeUnit, trig: Trig): (x: real)
    ensures u == Percent ==> x == RusleInflectPercent
  {
    if u == Degrees then trig.degreeInflect else RusleInflectPercent
  }

  /** One output cell of a transformation; NoData stays NoData. */
  function TransformCell(t: Transform, u: SlopeUnit, trig: Trig, c: Cell): (r: Cell)
    ensures r.Some? <==> c.Some?
    ensures c.Some? && t == TruncLin ==>
              r.value == TruncLinScore(c.value, Thresholds(u, trig).0, Thresholds(u, trig).1) &&
              0.0 <= r.value <= 100.0
    ensures c.Some? && t == TruncSin ==> r.value == TruncSinScore(Sine(u, trig, c.value))
    ensures c.Some? && t == Rusle ==> r.value == RusleS(c.value, Sine(u, trig, c.value), Inflect(u, trig))
  {
    match c
    case None => None
    case Some(s) =>
      match t
      case TruncLin =>
        var (lo, hi) := Thresholds(u, trig);
        TruncLinRange(s, lo, hi);
        Some(TruncLinScore(s, lo, hi))
      case TruncSin => Some(TruncSinScore(Sine(u, trig, s)))
      case Rusle => Some(RusleS(s, Sine(u, trig, s), Inflect(u, trig)))
  }

  /** The rasters SlopeTrans saves: the transformed slope, and the derived
      slope when the input is elevation. */
  datatype SlopeOutputs = SlopeOutputs(trans: Grid, slope: Option<Grid>)

  function TransformGrid(t: Transform, u: SlopeUnit, trig: Trig, g: Grid): (r: Grid)
    ensures |r| == |g|
    ensures forall i :: 0 <= i < |g| ==> r[i] == TransformCell(t, u, trig, g[i])
  {
    seq(|g|, i requires 0 <= i < |g| => TransformCell(t, u, trig, g[i]))
  }

  /** The checks SlopeTrans makes before any work: the input type first, then
      the transformation. */
  function CheckParameters(inputType: string, transType: string): (r: Result<(InputType, Transform), SlopeError>)
    ensures ParseInputType(inputType).None? ==> r == Err(InvalidInputType)
    ensures ParseInputType(inputType).Some? && ParseTransform(transType).None? ==> r == Err(InvalidTransform)
    ensures r.Ok? ==> r.value == (ParseInputType(inputType).value, ParseTransform(transType).value)
  {
    match ParseInputType(inputType)
    case None => Err(InvalidInputType)
    case Some(it) =>
      match ParseTransform(transType)
      case None => Err(InvalidTransform)
      case Some(t) => Ok((it, t))
  }

  /** SlopeTrans as written. `elevSlope` is the percent-grade slope the Slope
      tool derives from an elevation raster. With a slope input the source
      reads a slope variable that was never assigned, so every slope input
      fails after passing the parameter checks. */
  function SlopeTransAsWritten(inRaster: Grid, inputType: string, transType: string, elevSlope: Grid, trig: Trig): (r: Result<SlopeOutputs, SlopeError>)
    ensures CheckParameters(inputType, transType).Err? ==> r == Err(CheckParameters(inputType, transType).error)
    ensures CheckParameters(inputType, transType).Ok? ==>
              (r.Ok? <==> CheckParameters(inputType, transType).value.0 == ElevationInput)
    ensures r.Ok? ==> (r.value.slope == Some(elevSlope) &&
              r.value.trans == TransformGrid(CheckParameters(inputType, transType).value.1, Percent, trig, elevSlope))
  {
    match CheckParameters(inputType, transType)
    case Err(e) => Err(e)
    case Ok((it, t)) =>
      if it == ElevationInput then Ok(SlopeOutputs(TransformGrid(t, Percent, trig, elevSlope), Some(elevSlope)))
      else Err(UnboundSlope)
  }

  /** A valid degree-slope input is rejected by the code as written. */
  lemma SlopeInputFails(inRaster: Grid, elevSlope: Grid, trig: Trig)
    ensures SlopeTransAsWritten(inRaster, "DEG", "TRUNCLIN", elevSlope, trig) == Err(UnboundSlope)
  {
  }

  /** SlopeTrans as evidently intended: a slope input is used as the slope
      raster itself. */
  function SlopeTransCorrected(inRaster: Grid, inputType: string, transType: string, elevSlope: Grid, trig: Trig): (r: Result<SlopeOutputs, SlopeError>)
    ensures r.Err? <==> CheckParameters(inputType, transType).Err?
    ensures r.Err? ==> r.error != UnboundSlope
    ensures r.Ok? && CheckParameters(inputType, transType).value.0 != ElevationInput ==>
              r.value.slope.None? &&
              r.value.trans == TransformGrid(CheckParameters(inputType, transType).value.1,
                                             UnitOf(CheckParameters(inputType, transType).value.0), trig, inRaster)
    ensures r.Ok? && CheckParameters(inputType, transType).value.0 == ElevationInput ==>
              Ok(r.value) == SlopeTransAsWritten(inRaster, inputType, transType, elevSlope, trig)
  {
    match CheckParameters(inputType, transType)
    case Err(e) => Err(e)
    case Ok((it, t)) =>
      if it == ElevationInput then Ok(SlopeOutputs(TransformGrid(t, Percent, trig, elevSlope), Some(elevSlope)))
      else Ok(SlopeOutputs(TransformGrid(t, UnitOf(it), trig, inRaster), None))
  }

  /** With the correction every valid parameter pair produces a transformed
      raster of the slope raster's size, and a TRUNCLIN score in [0, 100]
      wherever the slope has data. */
  lemma SlopeTransCorrectedScores(inRaster: Grid, inputType: string, elevSlope: Grid, trig: Trig)
    requires ParseInputType(inputType).Some?
    ensures var r := SlopeTransCorrected(inRaster, inputType, "TRUNCLIN", elevSlope, trig);
            var src := if ParseInputType(inputType).value == ElevationInput then elevSlope else inRaster;
            r.Ok? && |r.value.trans| == |src| &&
            forall i :: 0 <= i < |src| ==>
              (r.value.trans[i].Some? <==> src[i].Some?) &&
              (src[i].Some? ==> 0.0 <= r.value.trans[i].value <= 100.0)
  {
  }

  // ---------------------------------------------------------------------------
  // soilLoss_RKSC

  /** The product R * K * S * C at one cell; NoData in any factor gives NoData. */
  function SoilLossCell(r: Cell, k: Cell, s: Cell, c: Cell): (x: Cell)
    ensures x.Some? <==> r.Some? && k.Some? && s.Some? && c.Some?
    ensures x.Some? ==> x.value == r.value * k.value * s.value * c.value
  {
    match (r, k, s, c)
    case (Some(rv), Some(kv), Some(sv), Some(cv)) => Some(rv * kv * sv * cv)
    case _ => None
  }

  /** soilLoss_RKSC: the cover factor C may be a raster or a constant (0.7 for
      the bare-land worst case). */
  function SoilLossRksc(rf: Grid, kf: Grid, sf: Grid, cf: Field): (x: Grid)
    requires |kf| == |rf| && |sf| == |rf| && FitsGrid(cf, |rf|)
    ensures |x| == |rf|
    ensures forall i :: 0 <= i < |rf| ==> x[i] == SoilLossCell(rf[i], kf[i], sf[i], FieldAt(cf, i))
  {
    seq(|rf|, i requires 0 <= i < |rf| => SoilLossCell(rf[i], kf[i], sf[i], FieldAt(cf, i)))
  }

  const BareLandCFactor: real := 0.7

  /** With non-negative factors the soil-loss potential is non-negative, and
      it grows with each factor: here, with the erodibility K. */
  lemma SoilLossMonotone(r: real, k1: real, k2: real, s: real, c: real)
    requires 0.0 <= r && 0.0 <= s && 0.0 <= c && 0.0 <= k1 <= k2
    ensures 0.0 <= SoilLossCell(Some(r), Some(k1), Some(s), Some(c)).value
    ensures SoilLossCell(Some(r), Some(k1), Some(s), Some(c)).value <= SoilLossCell(Some(r), Some(k2), Some(s), Some(c)).value
  {
    Rescale.MulMonotone(r, 0.0, k1);
    Rescale.MulMonotone(r, k1, k2);
    Rescale.MulMonotone(s, 0.0, r * k1);
    Rescale.MulMonotone(s, r * k1, r * k2);
    Rescale.MulMonotone(c, 0.0, r * k1 * s);
    Rescale.MulMonotone(c, r * k1 * s, r * k2 * s);
    assert r * k1 * s == s * (r * k1) && r * k2 * s == s * (r * k2);
    assert r * k1 * s * c == c * (r * k1 * s) && r * k2 * s * c == c * (r * k2 * s);
  }
}
