/** The component scores of the Watershed Impact Model and the combiners that
    join them: soil sensitivity, overland flow distance (with the headwater
    discount), sinkhole density, karst, landscape position, impact, and the
    scenario score. Every score runs from 1 (low) to 100 (high) unless said
    otherwise. */
module Scores {
  import opened Grids
  import opened CellStats
  import opened Rescale

  // ---------------------------------------------------------------------------
  // Soil sensitivity (calcSoilSensScore)

  /** Raster addition then halving: NoData if either input is NoData. */
  function HalfSumCell(a: Cell, b: Cell): (r: Cell)
    ensures r.Some? <==> a.Some? && b.Some?
    ensures r.Some? ==> r.value == (a.value + b.value) / 2.0
  {
    match (a, b)
    case (Some(x), Some(y)) => Some((x + y) / 2.0)
    case _ => None
  }

  /** The rasters calcSoilSensScore saves. */
  datatype SoilSensOutputs = SoilSensOutputs(soilLossScore: Grid, runoffScore: Grid, sens: Grid)

  /** One input rescaled between its truncation bounds (three standard
      deviations, kept within the data range) onto 1..100, under the
      processing mask. */
  function TruncatedScore(g: Grid, st: Stats, mask: Option<Grid>): (r: Grid)
    requires mask.Some? ==> |mask.value| == |g|
    ensures |r| == |g|
    ensures forall i :: 0 <= i < |g| ==> (r[i].Some? <==> g[i].Some? && EnvMaskCell(g[i], mask, i).Some?)
    ensures forall i :: 0 <= i < |g| && r[i].Some? ==>
              r[i].value == LinearRescale(g[i].value, TruncVals(st, DefaultNumSD).0, TruncVals(st, DefaultNumSD).1, 1.0, 100.0) &&
              1.0 <= r[i].value <= 100.0
  {
    var (lo, hi) := TruncVals(st, DefaultNumSD);
    EnvMask(RescaleGrid(g, lo, hi, 1.0, 100.0), mask)
  }

  /** calcSoilSensScore: the soil-loss and runoff potentials each rescaled to
      1..100 between their truncation bounds, and their average. The
      statistics are those of each input within the mask. */
  function SoilSensScore(soilLoss: Grid, runoff: Grid, slStats: Stats, roStats: Stats, mask: Option<Grid>): (r: SoilSensOutputs)
    requires |runoff| == |soilLoss|
    requires mask.Some? ==> |mask.value| == |soilLoss|
    ensures r.soilLossScore == TruncatedScore(soilLoss, slStats, mask)
    ensures r.runoffScore == TruncatedScore(runoff, roStats, mask)
    ensures |r.sens| == |soilLoss|
    ensures forall i :: 0 <= i < |soilLoss| ==> r.sens[i] == HalfSumCell(r.soilLossScore[i], r.runoffScore[i])
  {
    var sl := TruncatedScore(soilLoss, slStats, mask);
    var ro := TruncatedScore(runoff, roStats, mask);
    SoilSensOutputs(sl, ro, seq(|soilLoss|, i requires 0 <= i < |soilLoss| => HalfSumCell(sl[i], ro[i])))
  }

  /** The soil sensitivity score has data exactly where both potentials have
      data inside the mask, and there lies in [1, 100]. */
  lemma SoilSensRange(soilLoss: Grid, runoff: Grid, slStats: Stats, roStats: Stats, mask: Option<Grid>, i: nat)
    requires |runoff| == |soilLoss| && i < |soilLoss|
    requires mask.Some? ==> |mask.value| == |soilLoss|
    ensures var s := SoilSensScore(soilLoss, runoff, slStats, roStats, mask).sens[i];
            (s.Some? <==> soilLoss[i].Some? && runoff[i].Some? && (mask.None? || mask.value[i].Some?)) &&
            (s.Some? ==> 1.0 <= s.value <= 100.0)
  {
  }

  /** More soil-loss potential never lowers the soil sensitivity score of a
      cell (the runoff and the statistics held fixed). */
  lemma SoilSensMonotone(a: real, b: real, ro: Cell, st: Stats)
    requires a <= b
    ensures var (lo, hi) := TruncVals(st, DefaultNumSD);
            var sa := HalfSumCell(Some(LinearRescale(a, lo, hi, 1.0, 100.0)), ro);
            var sb := HalfSumCell(Some(LinearRescale(b, lo, hi, 1.0, 100.0)), ro);
            sa.Some? ==> sa.value <= sb.value
  {
    var (lo, hi) := TruncVals(st, DefaultNumSD);
    RescaleMonotone(a, b, lo, hi, 1.0, 100.0);
  }

  // ---------------------------------------------------------------------------
  // Overland flow distance (calcFlowScore)

  const DefaultMinFlowDist: real := 50.0
  const DefaultMaxFlowDist: real := 500.0
  const DefaultDiscount: real := 0.9

  /** The flow-length score of one cell: 100 near water (flow length at most
      `minDist`), 1 far away (at least `maxDist`), linear between. */
  function FlowLengthScore(len: Cell, minDist: real, maxDist: real): (r: Cell)
    ensures r.Some? <==> len.Some?
    ensures r.Some? ==> r.value == LinearRescale(len.value, minDist, maxDist, 100.0, 1.0) && 1.0 <= r.value <= 100.0
  {
    match len
    case None => None
    case Some(v) => Some(LinearRescale(v, minDist, maxDist, 100.0, 1.0))
  }

  /** The headwater discount of one cell: without a headwaters raster the
      score is kept; with one, cells outside headwater catchments (indicator
      0) have their score multiplied by the discount, and cells where the
      indicator is NoData are masked out. */
  function Discounted(hw: Option<Cell>, score: Cell, discount: real): (r: Cell)
    ensures hw.None? ==> r == score
    ensures hw == Some(None) ==> r.None?
    ensures hw == Some(Some(0.0)) ==> r == Scale(discount, score)
    ensures hw.Some? && hw.value.Some? && hw.value.value != 0.0 ==> r == score
  {
    match hw
    case None => score
    case Some(None) => None
    case Some(Some(h)) => if h == 0.0 then Scale(discount, score) else score
  }

  /** With a non-negative discount, discounting keeps the order of scores. */
  lemma DiscountMonotone(hw: Option<Cell>, a: real, b: real, discount: real)
    requires a <= b && 0.0 <= discount
    ensures Discounted(hw, Some(a), discount).Some? ==>
              Discounted(hw, Some(a), discount).value <= Discounted(hw, Some(b), discount).value
  {
    match hw
    case None =>
    case Some(None) =>
    case Some(Some(h)) =>
      if h == 0.0 {
        MulMonotone(discount, a, b);
        assert Discounted(hw, Some(a), discount).Some? && Discounted(hw, Some(a), discount).value == discount * a;
        assert Discounted(hw, Some(b), discount).Some? && Discounted(hw, Some(b), discount).value == discount * b;
      } else {
        assert Discounted(hw, Some(a), discount) == Some(a);
        assert Discounted(hw, Some(b), discount) == Some(b);
      }
  }

  /** The final flow score of one cell: the flow-length score after the
      headwater discount. */
  function FlowCell(len: Cell, hw: Option<Cell>, minDist: real, maxDist: real, discount: real): (r: Cell)
    ensures r.Some? <==> len.Some? && hw != Some(None)
    ensures r.Some? && hw != Some(Some(0.0)) ==> 1.0 <= r.value <= 100.0
  {
    Discounted(hw, FlowLengthScore(len, minDist, maxDist), discount)
  }

  /** calcFlowScore over a raster; `hdwtrs` is the optional headwaters
      indicator raster. */
  function FlowScore(flowLength: Grid, hdwtrs: Option<Grid>, minDist: real, maxDist: real, discount: real): (r: Grid)
    requires hdwtrs.Some? ==> |hdwtrs.value| == |flowLength|
    ensures |r| == |flowLength|
    ensures forall i :: 0 <= i < |flowLength| ==>
              r[i] == FlowCell(flowLength[i], if hdwtrs.Some? then Some(hdwtrs.value[i]) else None, minDist, maxDist, discount)
  {
    seq(|flowLength|, i requires 0 <= i < |flowLength| =>
      FlowCell(flowLength[i], if hdwtrs.Some? then Some(hdwtrs.value[i]) else None, minDist, maxDist, discount))
  }

  /** The promises of calcFlowScore: 100 within `minDist`, 1 beyond
      `maxDist`; with a discount in [0, 1] every score lies in [0, 100], and a
      non-headwater cell never scores more than a headwater cell at the same
      distance. */
  lemma FlowScoreBounds(v: real, h: real, minDist: real, maxDist: real, discount: real)
    requires 0.0 <= discount <= 1.0
    ensures v <= minDist ==> FlowCell(Some(v), None, minDist, maxDist, discount) == Some(100.0)
    ensures minDist < v && maxDist <= v ==> FlowCell(Some(v), None, minDist, maxDist, discount) == Some(1.0)
    ensures 0.0 <= FlowCell(Some(v), Some(Some(h)), minDist, maxDist, discount).value <= 100.0
    ensures FlowCell(Some(v), Some(Some(0.0)), minDist, maxDist, discount).value <=
            FlowCell(Some(v), Some(Some(1.0)), minDist, maxDist, discount).value
  {
    FlowCellValue(v, h, minDist, maxDist, discount);
    FlowCellValue(v, 0.0, minDist, maxDist, discount);
    FlowCellValue(v, 1.0, minDist, maxDist, discount);
    DiscountBounds(LinearRescale(v, minDist, maxDist, 100.0, 1.0), discount);
  }

  /** A discount in [0, 1] keeps a score in [1, 100] inside [0, 100] and never
      raises it. */
  lemma DiscountBounds(s: real, discount: real)
    requires 1.0 <= s <= 100.0 && 0.0 <= discount <= 1.0
    ensures 0.0 <= discount * s <= s <= 100.0
  {
    MulMonotone(s, discount, 1.0);
    MulMonotone(s, 0.0, discount);
    assert s * discount == discount * s;
  }

  /** A data cell with a headwaters indicator `h` scores the flow-length
      rescale, times the discount where `h` is 0. */
  lemma FlowCellValue(v: real, h: real, minDist: real, maxDist: real, discount: real)
    ensures FlowCell(Some(v), Some(Some(h)), minDist, maxDist, discount).Some?
    ensures h == 0.0 ==> FlowCell(Some(v), Some(Some(h)), minDist, maxDist, discount).value ==
                         discount * LinearRescale(v, minDist, maxDist, 100.0, 1.0)
    ensures h != 0.0 ==> FlowCell(Some(v), Some(Some(h)), minDist, maxDist, discount).value ==
                         LinearRescale(v, minDist, maxDist, 100.0, 1.0)
  {
    assert FlowLengthScore(Some(v), minDist, maxDist).value == LinearRescale(v, minDist, maxDist, 100.0, 1.0);
  }

  /** With the defaults a non-headwater cell next to water scores 90 instead
      of 100, and a headwater cell keeps its 100. */
  lemma FlowDiscountDefault(v: real)
    requires v <= DefaultMinFlowDist
    ensures FlowCell(Some(v), Some(Some(0.0)), DefaultMinFlowDist, DefaultMaxFlowDist, DefaultDiscount) == Some(90.0)
    ensures FlowCell(Some(v), Some(Some(1.0)), DefaultMinFlowDist, DefaultMaxFlowDist, DefaultDiscount) == Some(100.0)
  {
  }

  /** A longer flow path never raises the score. */
  lemma FlowScoreMonotone(v: real, w: real, hw: Option<Cell>, minDist: real, maxDist: real, discount: real)
    requires v <= w && 0.0 <= discount
    requires FlowCell(Some(v), hw, minDist, maxDist, discount).Some?
    ensures FlowCell(Some(w), hw, minDist, maxDist, discount).value <= FlowCell(Some(v), hw, minDist, maxDist, discount).value
  {
    RescaleMonotone(v, w, minDist, maxDist, 100.0, 1.0);
    DiscountMonotone(hw, LinearRescale(w, minDist, maxDist, 100.0, 1.0), LinearRescale(v, minDist, maxDist, 100.0, 1.0), discount);
  }

  // ---------------------------------------------------------------------------
  // Sinkhole density (calcSinkScore)

  /** The upper cut-off of the sinkhole score: the upper truncation bound of
      the positive densities, truncated toward zero to a whole number, so it
      never exceeds the largest density. */
  function SinkCutoff(positiveStats: Stats): (m: real)
    ensures m == m.Floor as real
    ensures 0.0 <= TruncVals(positiveStats, DefaultNumSD).1 ==>
              m <= TruncVals(positiveStats, DefaultNumSD).1 < m + 1.0
    ensures TruncVals(positiveStats, DefaultNumSD).1 < 0.0 ==>
              m - 1.0 < TruncVals(positiveStats, DefaultNumSD).1 <= m <= 0.0
    ensures 0.0 <= positiveStats.max ==> m <= positiveStats.max
  {
    TruncInt(TruncVals(positiveStats, DefaultNumSD).1) as real
  }

  /** calcSinkScore: the kernel density rescaled from 0 (score 1) to the
      cut-off (score 100), clipped to `clipMask`. `positiveStats` are the
      statistics of the cells of positive density. */
  function SinkScore(kdens: Grid, positiveStats: Stats, clipMask: Grid): (r: Grid)
    requires |clipMask| == |kdens|
    ensures |r| == |kdens|
    ensures forall i :: 0 <= i < |kdens| ==> (r[i].Some? <==> kdens[i].Some? && clipMask[i].Some?)
    ensures forall i :: 0 <= i < |kdens| && r[i].Some? ==>
              r[i].value == LinearRescale(kdens[i].value, 0.0, SinkCutoff(positiveStats), 1.0, 100.0) &&
              1.0 <= r[i].value <= 100.0
  {
    EnvMask(RescaleGrid(kdens, 0.0, SinkCutoff(positiveStats), 1.0, 100.0), Some(clipMask))
  }

  /** No sinkholes nearby scores 1, and a density at the cut-off scores 100. */
  lemma SinkScoreEnds(d: real, positiveStats: Stats)
    ensures d <= 0.0 ==> LinearRescale(d, 0.0, SinkCutoff(positiveStats), 1.0, 100.0) == 1.0
    ensures 0.0 < d && SinkCutoff(positiveStats) <= d ==> LinearRescale(d, 0.0, SinkCutoff(positiveStats), 1.0, 100.0) == 100.0
  {
  }

  // ---------------------------------------------------------------------------
  // Karst (calcKarstScore)

  const DefaultMinKarstDist: real := 100.0
  const DefaultMaxKarstDist: real := 5000.0

  datatype KarstOutputs = KarstOutputs(distScore: Grid, karstScore: Grid)

  /** calcKarstScore: the distance to karst rescaled from 100 (within
      `minDist`) to 1 (beyond `maxDist`), clipped to `clipMask`; with a
      sinkhole score given, the final score is the mean of the two wherever
      either has data. */
  function KarstScore(edist: Grid, clipMask: Grid, sinkScore: Option<Grid>, minDist: real, maxDist: real): (r: KarstOutputs)
    requires |clipMask| == |edist|
    requires sinkScore.Some? ==> |sinkScore.value| == |edist|
    ensures r.distScore == EnvMask(RescaleGrid(edist, minDist, maxDist, 100.0, 1.0), Some(clipMask))
    ensures sinkScore.None? ==> r.karstScore == r.distScore
    ensures sinkScore.Some? ==> (|r.karstScore| == |edist| &&
              forall i :: 0 <= i < |edist| ==>
                r.karstScore[i] == EnvMaskCell(CellMean([sinkScore.value[i], r.distScore[i]]), Some(clipMask), i))
  {
    var dist := EnvMask(RescaleGrid(edist, minDist, maxDist, 100.0, 1.0), Some(clipMask));
    match sinkScore
    case None => KarstOutputs(dist, dist)
    case Some(s) =>
      KarstOutputs(dist, seq(|edist|, i requires 0 <= i < |edist| =>
        EnvMaskCell(CellMean([s[i], dist[i]]), Some(clipMask), i)))
  }

  /** With a sinkhole score in [lo, 100] (lo <= 1), the karst score lies in
      [lo, 100]; it has data exactly inside the clip mask where the distance
      or the sinkhole score has data. */
  lemma KarstScoreRange(edist: Grid, clipMask: Grid, sink: Grid, minDist: real, maxDist: real, lo: real, i: nat)
    requires |clipMask| == |edist| && |sink| == |edist| && i < |edist|
    requires lo <= 1.0
    requires forall k :: 0 <= k < |sink| && sink[k].Some? ==> lo <= sink[k].value <= 100.0
    ensures var k := KarstScore(edist, clipMask, Some(sink), minDist, maxDist).karstScore[i];
            (k.Some? <==> clipMask[i].Some? && (edist[i].Some? || sink[i].Some?)) &&
            (k.Some? ==> lo <= k.value <= 100.0)
  {
    var r := KarstScore(edist, clipMask, Some(sink), minDist, maxDist);
    var cs := [sink[i], r.distScore[i]];
    assert cs[0] == sink[i] && cs[1] == r.distScore[i];
    CellMeanBounds(cs);
    if CellMean(cs).Some? {
      var a :| 0 <= a < |cs| && cs[a].Some? && cs[a].value <= CellMean(cs).value;
      var b :| 0 <= b < |cs| && cs[b].Some? && CellMean(cs).value <= cs[b].value;
    }
  }

  // ---------------------------------------------------------------------------
  // Landscape position and impact

  /** calcPositionScore: the larger of the flow and karst scores, ignoring
      NoData. */
  function PositionScore(flow: Grid, karst: Grid): (r: Grid)
    requires |karst| == |flow|
    ensures |r| == |flow|
    ensures forall i :: 0 <= i < |flow| ==> r[i] == CellMax([flow[i], karst[i]])
  {
    seq(|flow|, i requires 0 <= i < |flow| => CellMax([flow[i], karst[i]]))
  }

  /** The position score is NoData only where both inputs are, is one of the
      two scores, and is at least each of them. */
  lemma PositionIsMaximum(flow: Grid, karst: Grid, i: nat)
    requires |karst| == |flow| && i < |flow|
    ensures var p := PositionScore(flow, karst)[i];
            (p.None? <==> flow[i].None? && karst[i].None?) &&
            (p == flow[i] || p == karst[i]) &&
            (flow[i].Some? ==> flow[i].value <= p.value) &&
            (karst[i].Some? ==> karst[i].value <= p.value)
  {
    var cs := [flow[i], karst[i]];
    assert cs[0] == flow[i] && cs[1] == karst[i];
  }

  /** calcImpactScore: the mean of the position and soil sensitivity scores,
      ignoring NoData. */
  function ImpactScore(position: Grid, soilSens: Grid): (r: Grid)
    requires |soilSens| == |position|
    ensures |r| == |position|
    ensures forall i :: 0 <= i < |position| ==> r[i] == CellMean([position[i], soilSens[i]])
  {
    seq(|position|, i requires 0 <= i < |position| => CellMean([position[i], soilSens[i]]))
  }

  /** The impact score is the average where both scores have data, the one
      score present where only one has, NoData where neither has; so inputs
      in [1, 100] give an impact in [1, 100]. */
  lemma ImpactIsMean(position: Grid, soilSens: Grid, i: nat)
    requires |soilSens| == |position| && i < |position|
    ensures var m := ImpactScore(position, soilSens)[i];
            (position[i].Some? && soilSens[i].Some? ==> m == Some((position[i].value + soilSens[i].value) / 2.0)) &&
            (position[i].Some? && soilSens[i].None? ==> m == position[i]) &&
            (position[i].None? && soilSens[i].Some? ==> m == soilSens[i]) &&
            (position[i].None? && soilSens[i].None? ==> m.None?) &&
            ((m.Some? && (position[i].Some? ==> 1.0 <= position[i].value <= 100.0) &&
              (soilSens[i].Some? ==> 1.0 <= soilSens[i].value <= 100.0)) ==> 1.0 <= m.value <= 100.0)
  {
    MeanOfTwo(position[i], soilSens[i]);
  }

  // ---------------------------------------------------------------------------
  // Scenario score (ScenarioScore)

  /** Clamping into [0, 100]. */
  function Clamp100(x: real): (r: real)
    ensures 0.0 <= r <= 100.0
    ensures 0.0 <= x <= 100.0 ==> r == x
    ensures x > 100.0 ==> r == 100.0
    ensures x < 0.0 ==> r == 0.0
  {
    if x > 100.0 then 100.0 else if x < 0.0 then 0.0 else x
  }

  /** The scenario score of one cell: from a conservation perspective
      ("CONS") 100 (worst - case) / (worst - best), otherwise
      100 (case - best) / (worst - best), then clamped to [0, 100]. NoData in
      an input, or equal worst and best cases, give NoData. */
  function ScenarioCell(c: Cell, worst: Cell, best: Cell, priorType: string): (r: Cell)
    ensures r.Some? <==> c.Some? && worst.Some? && best.Some? && worst.value != best.value
    ensures r.Some? ==> 0.0 <= r.value <= 100.0
    ensures r.Some? && priorType == "CONS" ==>
              r.value == Clamp100(100.0 * (worst.value - c.value) / (worst.value - best.value))
    ensures r.Some? && priorType != "CONS" ==>
              r.value == Clamp100(100.0 * (c.value - best.value) / (worst.value - best.value))
  {
    match (c, worst, best)
    case (Some(x), Some(w), Some(b)) =>
      if w == b then None
      else if priorType == "CONS" then Some(Clamp100(100.0 * (w - x) / (w - b)))
      else Some(Clamp100(100.0 * (x - b) / (w - b)))
    case _ => None
  }

  /** The conservation and restoration scores of a cell add up to 100: the
      worst case scores 0 for conservation and 100 for restoration, the best
      case the other way round. */
  lemma ScenarioComplement(x: real, w: real, b: real)
    requires w != b
    ensures ScenarioCell(Some(x), Some(w), Some(b), "CONS").value + ScenarioCell(Some(x), Some(w), Some(b), "REST").value == 100.0
    ensures ScenarioCell(Some(w), Some(w), Some(b), "CONS") == Some(0.0)
    ensures ScenarioCell(Some(b), Some(w), Some(b), "CONS") == Some(100.0)
  {
    FractionsComplement(x, w, b);
    ClampComplement(100.0 * (w - x) / (w - b), 100.0 * (x - b) / (w - b));
    assert "REST" != "CONS";
    MulDivCancel(100.0, w - b);
  }

  lemma FractionsComplement(x: real, w: real, b: real)
    requires w != b
    ensures 100.0 * (w - x) / (w - b) + 100.0 * (x - b) / (w - b) == 100.0
  {
    var d := w - b;
    assert 100.0 * (w - x) / d + 100.0 * (x - b) / d == (100.0 * (w - x) + 100.0 * (x - b)) / d;
    assert 100.0 * (w - x) + 100.0 * (x - b) == 100.0 * d;
  }

  lemma ClampComplement(c: real, r: real)
    requires c + r == 100.0
    ensures Clamp100(c) + Clamp100(r) == 100.0
  {
  }

  /** ScenarioScore over rasters, under the optional processing mask. */
  function ScenarioScore(cs: Grid, worst: Grid, best: Grid, priorType: string, mask: Option<Grid>): (r: Grid)
    requires |worst| == |cs| && |best| == |cs|
    requires mask.Some? ==> |mask.value| == |cs|
    ensures |r| == |cs|
    ensures forall i :: 0 <= i < |cs| ==>
              r[i] == EnvMaskCell(ScenarioCell(cs[i], worst[i], best[i], priorType), mask, i)
    ensures forall i :: 0 <= i < |cs| && r[i].Some? ==> 0.0 <= r[i].value <= 100.0
  {
    seq(|cs|, i requires 0 <= i < |cs| => EnvMaskCell(ScenarioCell(cs[i], worst[i], best[i], priorType), mask, i))
  }
}
