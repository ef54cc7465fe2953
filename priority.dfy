/** The Importance Score (calcImportanceScore) and the conservation,
    restoration and stormwater-management priorities (calcPriorityScores). */
module Priority {
  import opened Grids
  import opened CellStats
  import opened Rescale

  // ---------------------------------------------------------------------------
  // Importance score

  /** One input of the importance score: the raster counting how many of the
      impact-area polygons overlap each cell (NoData outside all of them),
      and the weight of those features. */
  datatype Layer = Layer(counts: Grid, weight: real)

  /** The weighted count raster: the counts multiplied by the weight, which
      the source skips when the weight is 1. */
  function Weighted(l: Layer): (g: Grid)
    ensures |g| == |l.counts|
    ensures forall c :: 0 <= c < |g| ==> g[c] == Scale(l.weight, l.counts[c])
  {
    if l.weight != 1.0 then seq(|l.counts|, c requires 0 <= c < |l.counts| => Scale(l.weight, l.counts[c]))
    else l.counts
  }

  /** The weighted sum: CellStatistics SUM over the weighted rasters when
      there are several, the single raster itself otherwise. Either way it is
      the cell sum ignoring NoData. */
  function WeightedSum(proc: seq<Grid>, n: nat): (r: Grid)
    requires |proc| >= 1
    requires forall k :: 0 <= k < |proc| ==> |proc[k]| == n
    ensures |r| == n
    ensures forall c :: 0 <= c < n ==> r[c] == CellSum(Column(proc, c))
  {
    if |proc| > 1 then seq(n, c requires 0 <= c < n => CellSum(Column(proc, c)))
    else
      assert forall c :: 0 <= c < n ==> Column(proc, c) == [proc[0][c]];
      forall c | 0 <= c < n ensures proc[0][c] == CellSum(Column(proc, c)) {
        CellSumSingle(proc[0][c]);
      }
      proc[0]
  }

  datatype ImportanceError =
    | NoLayers          // an empty input list: the first element does not exist
    | NoDataEverywhere  // the weighted sum has no data cell, so no maximum

  /** The weighted rasters of all the layers, in order. */
  function WeightedLayers(layers: seq<Layer>): (proc: seq<Grid>)
    ensures |proc| == |layers|
    ensures forall k :: 0 <= k < |layers| ==> proc[k] == Weighted(layers[k])
  {
    seq(|layers|, k requires 0 <= k < |layers| => Weighted(layers[k]))
  }

  /** 100 * sum / max at one cell; a zero maximum divides by zero and gives
      NoData. */
  function ScoreCell(v: Cell, m: real): (r: Cell)
    ensures r.Some? <==> v.Some? && m != 0.0
    ensures r.Some? ==> r.value == 100.0 * v.value / m
  {
    if m == 0.0 then None
    else match v
      case None => None
      case Some(x) => Some(100.0 * x / m)
  }

  /** What calcImportanceScore computes: the weighted sum of the overlap
      counts scaled so that its maximum becomes 100. */
  function ImportanceSpec(layers: seq<Layer>, n: nat): (r: Result<Grid, ImportanceError>)
    requires forall k :: 0 <= k < |layers| ==> |layers[k].counts| == n
    ensures r == Err(NoLayers) <==> |layers| == 0
    ensures r == Err(NoDataEverywhere) <==>
              |layers| > 0 && forall k, c :: 0 <= k < |layers| && 0 <= c < n ==> layers[k].counts[c].None?
    ensures r.Ok? ==> |r.value| == n
    ensures r.Ok? ==> (|layers| > 0 && CellMax(WeightedSum(WeightedLayers(layers), n)).Some? &&
              forall c :: 0 <= c < n ==>
                r.value[c] == ScoreCell(WeightedSum(WeightedLayers(layers), n)[c],
                                        CellMax(WeightedSum(WeightedLayers(layers), n)).value))
  {
    if |layers| == 0 then Err(NoLayers)
    else
      var proc := WeightedLayers(layers);
      var sum := WeightedSum(proc, n);
      SumNoData(layers, proc, sum, n);
      match CellMax(sum)
      case None => Err(NoDataEverywhere)
      case Some(m) => Ok(Normalised(sum, m))
  }

  /** The weighted sum divided cell by cell by its maximum. */
  function Normalised(sum: Grid, m: real): (r: Grid)
    ensures |r| == |sum|
    ensures forall c :: 0 <= c < |sum| ==> r[c] == ScoreCell(sum[c], m)
  {
    seq(|sum|, c requires 0 <= c < |sum| => ScoreCell(sum[c], m))
  }

  /** A cell of the weighted sum is NoData exactly when no layer covers it. */
  lemma SumNoData(layers: seq<Layer>, proc: seq<Grid>, sum: Grid, n: nat)
    requires |layers| >= 1
    requires forall k :: 0 <= k < |layers| ==> |layers[k].counts| == n
    requires proc == WeightedLayers(layers)
    requires sum == WeightedSum(proc, n)
    ensures forall c :: 0 <= c < n ==> (sum[c].None? <==> forall k :: 0 <= k < |layers| ==> layers[k].counts[c].None?)
    ensures CellMax(sum).None? <==> forall k, c :: 0 <= k < |layers| && 0 <= c < n ==> layers[k].counts[c].None?
  {
    forall c | 0 <= c < n
      ensures sum[c].None? <==> forall k :: 0 <= k < |layers| ==> layers[k].counts[c].None?
    {
      CellSumNoData(Column(proc, c));
    }
    if CellMax(sum).None? {
      forall k, c | 0 <= k < |layers| && 0 <= c < n ensures layers[k].counts[c].None? {
        assert sum[c].None?;
      }
    }
  }

  /** calcImportanceScore: works through the (counts, weight) pairs, appending
      each weighted raster to the processing list, then sums the list and
      divides by the maximum of the sum. */
  method ImportanceScore(layers: seq<Layer>, n: nat) returns (r: Result<Grid, ImportanceError>)
    requires forall k :: 0 <= k < |layers| ==> |layers[k].counts| == n
    ensures r == ImportanceSpec(layers, n)
  {
    var procList: seq<Grid> := [];
    for i := 0 to |layers|
      invariant |procList| == i
      invariant forall k :: 0 <= k < i ==> procList[k] == Weighted(layers[k])
    {
      var l := layers[i];
      var wtCt: Grid;
      if l.weight != 1.0 {
        wtCt := seq(|l.counts|, c requires 0 <= c < |l.counts| => Scale(l.weight, l.counts[c]));
      } else {
        wtCt := l.counts;
      }
      procList := procList + [wtCt];
    }
    if |procList| == 0 {
      return Err(NoLayers);
    }
    assert procList == WeightedLayers(layers);
    var wtSum: Grid;
    if |procList| > 1 {
      wtSum := seq(n, c requires 0 <= c < n => CellSum(Column(procList, c)));
    } else {
      wtSum := procList[0];
    }
    assert wtSum == WeightedSum(procList, n);
    var rMax := CellMax(wtSum);
    if rMax.None? {
      return Err(NoDataEverywhere);
    }
    r := Ok(Normalised(wtSum, rMax.value));
  }

  /** Where the scaling is defined (a non-zero maximum), a cell of the
      importance score is NoData exactly when no impact area covers it. */
  lemma ImportanceNoData(layers: seq<Layer>, n: nat, c: nat)
    requires forall k :: 0 <= k < |layers| ==> |layers[k].counts| == n
    requires c < n && |layers| > 0
    requires CellMax(WeightedSum(WeightedLayers(layers), n)).Some?
    requires CellMax(WeightedSum(WeightedLayers(layers), n)).value != 0.0
    ensures ImportanceSpec(layers, n).Ok?
    ensures ImportanceSpec(layers, n).value[c].None? <==> forall k :: 0 <= k < |layers| ==> layers[k].counts[c].None?
  {
    SumNoData(layers, WeightedLayers(layers), WeightedSum(WeightedLayers(layers), n), n);
  }

  /** With non-negative weights and counts every score lies in [0, 100], and
      a cell where the weighted sum is largest scores exactly 100. */
  lemma ImportanceRange(layers: seq<Layer>, n: nat)
    requires forall k :: 0 <= k < |layers| ==> |layers[k].counts| == n
    requires forall k :: 0 <= k < |layers| ==> 0.0 <= layers[k].weight
    requires forall k, c :: 0 <= k < |layers| && 0 <= c < n && layers[k].counts[c].Some? ==> 0.0 <= layers[k].counts[c].value
    ensures ImportanceSpec(layers, n).Ok? ==>
              forall c :: 0 <= c < n && ImportanceSpec(layers, n).value[c].Some? ==>
                0.0 <= ImportanceSpec(layers, n).value[c].value <= 100.0
    ensures ImportanceSpec(layers, n).Ok? && (exists c :: 0 <= c < n && ImportanceSpec(layers, n).value[c].Some?) ==>
              exists c :: 0 <= c < n && ImportanceSpec(layers, n).value[c] == Some(100.0)
  {
    if |layers| > 0 {
      var proc := WeightedLayers(layers);
      var sum := WeightedSum(proc, n);
      var r := ImportanceSpec(layers, n);
      SumCellsNonNegative(layers, proc, sum, n);
      if r.Ok? {
        var m := CellMax(sum).value;
        assert r.value == Normalised(sum, m);
        forall c | 0 <= c < n && r.value[c].Some?
          ensures 0.0 <= r.value[c].value <= 100.0
        {
          assert r.value[c] == ScoreCell(sum[c], m);
          ScoreCellRange(sum[c].value, m);
        }
        if exists c :: 0 <= c < n && r.value[c].Some? {
          var j :| 0 <= j < n && sum[j] == Some(m);
          ScoreCellRange(m, m);
          assert r.value[j] == Some(100.0);
        }
      }
    }
  }

  lemma SumCellsNonNegative(layers: seq<Layer>, proc: seq<Grid>, sum: Grid, n: nat)
    requires |layers| >= 1
    requires forall k :: 0 <= k < |layers| ==> |layers[k].counts| == n
    requires forall k :: 0 <= k < |layers| ==> 0.0 <= layers[k].weight
    requires forall k, c :: 0 <= k < |layers| && 0 <= c < n && layers[k].counts[c].Some? ==> 0.0 <= layers[k].counts[c].value
    requires proc == WeightedLayers(layers)
    requires sum == WeightedSum(proc, n)
    ensures forall c :: 0 <= c < n && sum[c].Some? ==> 0.0 <= sum[c].value
  {
    forall c | 0 <= c < n && sum[c].Some? ensures 0.0 <= sum[c].value {
      ColumnNonNegative(layers, proc, c);
      SumNonNegative(Column(proc, c));
    }
  }

  /** The weighted counts at one cell are non-negative. */
  lemma ColumnNonNegative(layers: seq<Layer>, proc: seq<Grid>, c: nat)
    requires forall k :: 0 <= k < |layers| ==> c < |layers[k].counts|
    requires forall k :: 0 <= k < |layers| ==> 0.0 <= layers[k].weight
    requires forall k :: 0 <= k < |layers| && layers[k].counts[c].Some? ==> 0.0 <= layers[k].counts[c].value
    requires proc == WeightedLayers(layers)
    ensures forall k :: 0 <= k < |proc| && Column(proc, c)[k].Some? ==> 0.0 <= Column(proc, c)[k].value
  {
    var col := Column(proc, c);
    forall k | 0 <= k < |col| && col[k].Some? ensures 0.0 <= col[k].value {
      assert col[k] == Scale(layers[k].weight, layers[k].counts[c]);
      MulMonotone(layers[k].weight, 0.0, layers[k].counts[c].value);
      assert layers[k].weight * 0.0 == 0.0;
    }
  }

  /** Consequences of the scaling 100 * sum / max that `ImportanceSpec`
      states cell by cell: a weighted sum of 0 scores 0, and with a positive
      maximum a larger weighted sum never scores lower. */
  lemma ImportanceOrder(layers: seq<Layer>, n: nat, c: nat, d: nat)
    requires forall k :: 0 <= k < |layers| ==> |layers[k].counts| == n
    requires ImportanceSpec(layers, n).Ok? && c < n && d < n
    ensures |layers| > 0 && CellMax(WeightedSum(WeightedLayers(layers), n)).Some?
    ensures var sum := WeightedSum(WeightedLayers(layers), n);
            var m := CellMax(sum).value;
            var r := ImportanceSpec(layers, n).value;
            (sum[c] == Some(0.0) && m != 0.0 ==> r[c].Some? && r[c].value == 0.0) &&
            (0.0 < m && sum[c].Some? && sum[d].Some? && sum[c].value <= sum[d].value ==>
               r[c].value <= r[d].value)
  {
    var proc := WeightedLayers(layers);
    var sum := WeightedSum(proc, n);
    var m := CellMax(sum).value;
    var r := ImportanceSpec(layers, n);
    assert r.value == Normalised(sum, m);
    assert r.value[c] == ScoreCell(sum[c], m);
    assert r.value[d] == ScoreCell(sum[d], m);
    ScoreCellOrder(sum[c], sum[d], m);
    assert sum[c] == Some(0.0) && m != 0.0 ==> r.value[c].Some? && r.value[c].value == 0.0;
    assert 0.0 < m && sum[c].Some? && sum[d].Some? && sum[c].value <= sum[d].value ==>
             r.value[c].value <= r.value[d].value;
  }

  /** A sum of 0 scores 0, and with a positive maximum the score keeps the
      order of the sums. */
  lemma ScoreCellOrder(u: Cell, v: Cell, m: real)
    ensures u == Some(0.0) && m != 0.0 ==> ScoreCell(u, m).Some? && ScoreCell(u, m).value == 0.0
    ensures 0.0 < m && u.Some? && v.Some? && u.value <= v.value ==> ScoreCell(u, m).value <= ScoreCell(v, m).value
  {
    if 0.0 < m && u.Some? && v.Some? && u.value <= v.value {
      MulMonotone(100.0, u.value, v.value);
      DivMonotone(100.0 * u.value, 100.0 * v.value, m);
    }
  }

  /** 0 <= v <= m with m non-zero gives a score in [0, 100], and 100 at v = m. */
  lemma ScoreCellRange(v: real, m: real)
    requires 0.0 <= v <= m && m != 0.0
    ensures 0.0 <= ScoreCell(Some(v), m).value <= 100.0
    ensures ScoreCell(Some(m), m) == Some(100.0)
  {
    DivMonotone(0.0, 100.0 * v, m);
    DivMonotone(100.0 * v, 100.0 * m, m);
    MulDivCancel(100.0, m);
  }

  // ---------------------------------------------------------------------------
  // Priority scores

  /** The importance argument: the constant 1 (importance everywhere the
      same) or an importance-score raster. */
  datatype Importance = ImportanceConstant(c: real) | ImportanceRaster(g: Grid)

  datatype RescaleOption = SliceRescale | StandardRescale | NoRescale

  function ParseRescale(s: string): (o: RescaleOption)
    ensures o == SliceRescale <==> s == "SLICE"
    ensures o == StandardRescale <==> s == "STANDARD"
  {
    if s == "SLICE" then SliceRescale else if s == "STANDARD" then StandardRescale else NoRescale
  }

  datatype PriorityError =
    | ConstantImportance  // a constant other than 1 is opened as a raster path
    | UndefinedBounds     // the STANDARD branch reads bounds under names never assigned
    | NoStatistics        // the corrected STANDARD branch on a raster with no data

  /** The general priority of one cell: importance / 100 times impact. */
  function GeneralCell(importance: Cell, impact: Cell): (r: Cell)
    ensures r.Some? <==> importance.Some? && impact.Some?
    ensures r.Some? ==> r.value == importance.value / 100.0 * impact.value
  {
    match (importance, impact)
    case (Some(a), Some(b)) => Some(a / 100.0 * b)
    case _ => None
  }

  /** The general priority raster: the impact score itself when the
      importance is the constant 1, the importance-weighted impact for an
      importance raster. */
  function GeneralPriority(impact: Grid, importance: Importance): (r: Result<Grid, PriorityError>)
    requires importance.ImportanceRaster? ==> |importance.g| == |impact|
    ensures r.Err? <==> importance.ImportanceConstant? && importance.c != 1.0
    ensures importance == ImportanceConstant(1.0) ==> r == Ok(impact)
    ensures r.Ok? && importance.ImportanceRaster? ==> (|r.value| == |impact| &&
              forall i :: 0 <= i < |impact| ==> r.value[i] == GeneralCell(importance.g[i], impact[i]))
  {
    match importance
    case ImportanceConstant(c) => if c == 1.0 then Ok(impact) else Err(ConstantImportance)
    case ImportanceRaster(g) => Ok(seq(|impact|, i requires 0 <= i < |impact| => GeneralCell(g[i], impact[i])))
  }

  /** An importance in [0, 100] can only lower the impact score: the general
      priority lies between 0 and the impact; full importance (100) keeps the
      impact, which is what the constant 1 does everywhere. */
  lemma GeneralPriorityBounds(a: real, b: real)
    requires 0.0 <= a <= 100.0 && 0.0 <= b
    ensures 0.0 <= GeneralCell(Some(a), Some(b)).value <= b
    ensures GeneralCell(Some(100.0), Some(b)) == Some(b)
  {
    assert 0.0 <= a / 100.0 <= 1.0;
    MulMonotone(b, 0.0, a / 100.0);
    MulMonotone(b, a / 100.0, 1.0);
    assert a / 100.0 * b == b * (a / 100.0);
    assert b * 1.0 == b;
  }

  /** The masked priority rasters: the priority where the mask has a non-zero
      value, NoData elsewhere. */
  function Masked(mask: Grid, score: Grid): (r: Grid)
    requires |mask| == |score|
    ensures |r| == |score|
    ensures forall i :: 0 <= i < |score| ==> (r[i].Some? <==> mask[i].Some? && mask[i].value != 0.0 && score[i].Some?)
    ensures forall i :: 0 <= i < |score| && r[i].Some? ==> r[i] == score[i]
  {
    seq(|score|, i requires 0 <= i < |score| => ConMaskCell(mask[i], score[i]))
  }

  datatype PriorityOutputs = PriorityOutputs(general: Grid, score: Grid, cons: Grid, rest: Grid, mgmt: Grid)

  function MaskAll(general: Grid, score: Grid, consMask: Grid, restMask: Grid, mgmtMask: Grid): (o: PriorityOutputs)
    requires |score| == |general| && |consMask| == |general| && |restMask| == |general| && |mgmtMask| == |general|
    ensures o.general == general && o.score == score
    ensures o.cons == Masked(consMask, score) && o.rest == Masked(restMask, score) && o.mgmt == Masked(mgmtMask, score)
  {
    PriorityOutputs(general, score, Masked(consMask, score), Masked(restMask, score), Masked(mgmtMask, score))
  }

  /** calcPriorityScores as written. `sliced` is the output of the
      equal-area quantile Slice of the general priority. The STANDARD branch
      fails because it reads its bounds under misspelt names. */
  function PriorityScoresAsWritten(impact: Grid, importance: Importance, consMask: Grid, restMask: Grid, mgmtMask: Grid,
                                   rescale: string, sliced: Grid): (r: Result<PriorityOutputs, PriorityError>)
    requires importance.ImportanceRaster? ==> |importance.g| == |impact|
    requires |consMask| == |impact| && |restMask| == |impact| && |mgmtMask| == |impact| && |sliced| == |impact|
    ensures GeneralPriority(impact, importance).Err? ==> r == Err(ConstantImportance)
    ensures GeneralPriority(impact, importance).Ok? ==> (r.Err? <==> rescale == "STANDARD")
    ensures r.Ok? ==> r.value.general == GeneralPriority(impact, importance).value
    ensures r.Ok? && rescale == "SLICE" ==> r.value.score == sliced
    ensures r.Ok? && rescale != "SLICE" ==> r.value.score == r.value.general
    ensures r.Ok? ==> r.value == MaskAll(r.value.general, r.value.score, consMask, restMask, mgmtMask)
  {
    match GeneralPriority(impact, importance)
    case Err(e) => Err(e)
    case Ok(p) =>
      match ParseRescale(rescale)
      case SliceRescale => Ok(MaskAll(p, sliced, consMask, restMask, mgmtMask))
      case StandardRescale => Err(UndefinedBounds)
      case NoRescale => Ok(MaskAll(p, p, consMask, restMask, mgmtMask))
  }

  /** The STANDARD option never produces priorities as written. */
  lemma StandardAlwaysFails(impact: Grid, consMask: Grid, restMask: Grid, mgmtMask: Grid)
    requires |consMask| == |impact| && |restMask| == |impact| && |mgmtMask| == |impact|
    ensures PriorityScoresAsWritten(impact, ImportanceConstant(1.0), consMask, restMask, mgmtMask, "STANDARD", impact) == Err(UndefinedBounds)
  {
  }

  /** The standard rescale as evidently intended: the general priority
      rescaled linearly from its minimum (score 1) to its maximum (score 100). */
  function StandardRescaled(p: Grid): (r: Result<Grid, PriorityError>)
    ensures r.Err? <==> forall i :: 0 <= i < |p| ==> p[i].None?
    ensures r.Ok? ==> (|r.value| == |p| &&
              (forall i :: 0 <= i < |p| ==> (r.value[i].Some? <==> p[i].Some?)) &&
              (forall i :: 0 <= i < |p| && p[i].Some? ==> 1.0 <= r.value[i].value <= 100.0))
    ensures r.Ok? ==> (CellMin(p).Some? && CellMax(p).Some? &&
              forall i :: 0 <= i < |p| && p[i].Some? ==>
                r.value[i].value == LinearRescale(p[i].value, CellMin(p).value, CellMax(p).value, 1.0, 100.0))
  {
    match (CellMin(p), CellMax(p))
    case (Some(lo), Some(hi)) => Ok(RescaleGrid(p, lo, hi, 1.0, 100.0))
    case _ => Err(NoStatistics)
  }

  /** With the correction the lowest general priority scores 1 and, when the
      priorities are not all equal, the highest scores 100; the rescale keeps
      the order of the cells. */
  lemma StandardRescaledEnds(p: Grid, i: nat, j: nat)
    requires i < |p| && j < |p| && p[i].Some? && p[j].Some?
    ensures StandardRescaled(p).Ok?
    ensures p[i] == CellMin(p) ==> StandardRescaled(p).value[i] == Some(1.0)
    ensures p[i] == CellMax(p) && CellMin(p).value < CellMax(p).value ==> StandardRescaled(p).value[i] == Some(100.0)
    ensures p[i].value <= p[j].value ==> StandardRescaled(p).value[i].value <= StandardRescaled(p).value[j].value
  {
    RescaleEnds(p[i].value, p[j].value, CellMin(p).value, CellMax(p).value);
  }

  lemma RescaleEnds(v: real, w: real, lo: real, hi: real)
    ensures v == lo ==> LinearRescale(v, lo, hi, 1.0, 100.0) == 1.0
    ensures v == hi && lo < hi ==> LinearRescale(v, lo, hi, 1.0, 100.0) == 100.0
    ensures v <= w ==> LinearRescale(v, lo, hi, 1.0, 100.0) <= LinearRescale(w, lo, hi, 1.0, 100.0)
  {
    if v <= w {
      RescaleMonotone(v, w, lo, hi, 1.0, 100.0);
    }
  }

  /** calcPriorityScores as evidently intended: the STANDARD branch rescales
      between the minimum and maximum of the general priority. */
  function PriorityScoresCorrected(impact: Grid, importance: Importance, consMask: Grid, restMask: Grid, mgmtMask: Grid,
                                   rescale: string, sliced: Grid): (r: Result<PriorityOutputs, PriorityError>)
    requires importance.ImportanceRaster? ==> |importance.g| == |impact|
    requires |consMask| == |impact| && |restMask| == |impact| && |mgmtMask| == |impact| && |sliced| == |impact|
    ensures rescale != "STANDARD" ==> r == PriorityScoresAsWritten(impact, importance, consMask, restMask, mgmtMask, rescale, sliced)
    ensures rescale == "STANDARD" && GeneralPriority(impact, importance).Ok? ==>
              (r.Ok? <==> StandardRescaled(GeneralPriority(impact, importance).value).Ok?)
    ensures r.Ok? && rescale == "STANDARD" ==>
              (GeneralPriority(impact, importance).Ok? &&
               r.value.general == GeneralPriority(impact, importance).value &&
               StandardRescaled(r.value.general) == Ok(r.value.score) &&
               r.value == MaskAll(r.value.general, r.value.score, consMask, restMask, mgmtMask))
  {
    if rescale != "STANDARD" then PriorityScoresAsWritten(impact, importance, consMask, restMask, mgmtMask, rescale, sliced)
    else
      match GeneralPriority(impact, importance)
      case Err(e) => Err(e)
      case Ok(p) =>
        match StandardRescaled(p)
        case Err(e) => Err(e)
        case Ok(s) => Ok(MaskAll(p, s, consMask, restMask, mgmtMask))
  }

  /** A cell inside two of the masks gets the same priority in both outputs,
      and a cell outside a mask gets none in that output. */
  lemma MasksShareScore(o: PriorityOutputs, consMask: Grid, restMask: Grid, mgmtMask: Grid, i: nat)
    requires |o.score| == |o.general| && |consMask| == |o.general| && |restMask| == |o.general| && |mgmtMask| == |o.general|
    requires o == MaskAll(o.general, o.score, consMask, restMask, mgmtMask)
    requires i < |o.general|
    ensures o.cons[i].Some? && o.rest[i].Some? ==> o.cons[i] == o.rest[i]
    ensures o.cons[i].Some? && o.mgmt[i].Some? ==> o.cons[i] == o.mgmt[i]
    ensures consMask[i].None? || consMask[i] == Some(0.0) ==> o.cons[i].None?
    ensures o.score[i].Some? && consMask[i].Some? && consMask[i].value != 0.0 ==> o.cons[i] == o.score[i]
  {
  }

  // ---------------------------------------------------------------------------
  // Output names

  const BaseNames: seq<string> := ["genPriority", "consPriority", "restPriority", "mgmtPriority"]

  function Paths(outGdb: string, sep: string): (ps: seq<string>)
    ensures |ps| == |BaseNames|
    ensures forall k :: 0 <= k < |BaseNames| ==> ps[k] == outGdb + sep + BaseNames[k]
  {
    seq(|BaseNames|, k requires 0 <= k < |BaseNames| => outGdb + sep + BaseNames[k])
  }

  /** The output paths as written: the loop meant to add the name tag binds
      each suffixed name to the loop variable only, so the paths keep no
      trace of the tag. */
  method OutputPathsAsWritten(outGdb: string, sep: string, nameTag: string) returns (paths: seq<string>)
    ensures paths == Paths(outGdb, sep)
  {
    paths := Paths(outGdb, sep);
    if nameTag != "NONE" {
      for k := 0 to |paths|
        invariant paths == Paths(outGdb, sep)
      {
        var p := paths[k];
        p := p + "_" + nameTag;
      }
    }
  }

  /** The output paths as evidently intended: each gets "_" and the tag
      appended unless the tag is "NONE". */
  method OutputPathsCorrected(outGdb: string, sep: string, nameTag: string) returns (paths: seq<string>)
    ensures nameTag == "NONE" ==> paths == Paths(outGdb, sep)
    ensures nameTag != "NONE" ==> paths == TaggedPaths(outGdb, sep, nameTag)
  {
    paths := Paths(outGdb, sep);
    if nameTag != "NONE" {
      for k := 0 to |paths|
        invariant |paths| == |BaseNames|
        invariant forall j :: 0 <= j < k ==> paths[j] == outGdb + sep + BaseNames[j] + "_" + nameTag
        invariant forall j :: k <= j < |paths| ==> paths[j] == outGdb + sep + BaseNames[j]
      {
        paths := paths[k := paths[k] + "_" + nameTag];
      }
    }
  }

  function TaggedPaths(outGdb: string, sep: string, nameTag: string): (ps: seq<string>)
    ensures |ps| == |BaseNames|
    ensures forall k :: 0 <= k < |BaseNames| ==> ps[k] == outGdb + sep + BaseNames[k] + "_" + nameTag
  {
    seq(|BaseNames|, k requires 0 <= k < |BaseNames| => outGdb + sep + BaseNames[k] + "_" + nameTag)
  }

  /** The tag makes a difference: a tagged path is never the untagged one, so
      runs with different tags no longer overwrite each other, while the
      as-written paths are the same for every tag. */
  lemma TagDistinguishes(outGdb: string, sep: string, tag1: string, tag2: string)
    requires tag1 != tag2
    ensures forall k :: 0 <= k < |BaseNames| ==> TaggedPaths(outGdb, sep, tag1)[k] != Paths(outGdb, sep)[k]
    ensures forall k :: 0 <= k < |BaseNames| ==> TaggedPaths(outGdb, sep, tag1)[k] != TaggedPaths(outGdb, sep, tag2)[k]
  {
    forall k | 0 <= k < |BaseNames|
      ensures TaggedPaths(outGdb, sep, tag1)[k] != TaggedPaths(outGdb, sep, tag2)[k]
    {
      var pre := outGdb + sep + BaseNames[k] + "_";
      assert TaggedPaths(outGdb, sep, tag1)[k] == pre + tag1;
      assert TaggedPaths(outGdb, sep, tag2)[k] == pre + tag2;
      assert (pre + tag1)[|pre|..] == tag1 && (pre + tag2)[|pre|..] == tag2;
    }
    forall k | 0 <= k < |BaseNames|
      ensures TaggedPaths(outGdb, sep, tag1)[k] != Paths(outGdb, sep)[k]
    {
      assert |TaggedPaths(outGdb, sep, tag1)[k]| > |Paths(outGdb, sep)[k]|;
    }
  }
}
