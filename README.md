# ConservationVision Watershed Impact Model: the scoring arithmetic

This project is a Dafny model of the per-cell arithmetic behind the Watershed Impact Model. The system's scoring functions are those of `WtrshdImpact_Functions.py`, and each is modelled here by the Dafny members listed below. They turn soil, slope, land-cover, runoff and distance rasters into 1..100 scores. The scores are then combined into landscape-position, soil-sensitivity, impact, importance and priority rasters. The raster engine around them is not modelled. Its outputs (polygon rasterizations, kernel densities, Euclidean and flow distances, the Slope tool, quantile slices, raster statistics) appear as inputs to the model.

Conventions:

- **Rasters.** A raster is a flattened `seq<Option<real>>` (module `Grids`). `None` stands for NoData.
- **Co-registration.** Rasters combined cell by cell are co-registered, which the source assumes as well. The model asks only that they have equal lengths.
- **Raster algebra.** NoData in an operand gives NoData. A two-way `Con` ignores the branch it does not take. `Con(mask, x)` gives NoData where the mask is 0 or NoData. Division by zero gives NoData.
- **Environment mask.** Setting the processing mask turns every cell where the mask is NoData into NoData (`Grids.EnvMask`).
- **`CellStatistics(..., "DATA")`.** The statistic is taken over the inputs that have data. The result is NoData only where every input is NoData (module `CellStats`).
- **`TfLinear` with `RescaleByFunction`.** This is the truncated linear transfer its parameters describe (`Rescale.LinearRescale`). Values at or below the lower threshold map to the *from* scale and values at or above the upper one map to the *to* scale. In between the mapping is linear.
- **Errors.** A call that ends in `sys.exit`, a `KeyError` or an unbound name returns an `Err` value.

Modules, following the source's sections:

| module | source function(s) |
|---|---|
| `Grids` | rasters, constant-or-raster arguments, masks |
| `CellStats` | cell statistics MAXIMUM, MINIMUM, SUM, MEAN (ignoring NoData) |
| `Rescale` | `getTruncVals`, the truncated linear rescale |
| `Soils` | the `grpNum` and `replaceNulls` code blocks, `SSURGOtoRaster` |
| `CurveNumber` | `curvNum`: the OpenNSPECT curve-number table, the attribute-field loop, the lookup |
| `Runoff` | `eventRunoff`: SCS curve-number method of Technical Release 55, chapter 2 (equations 2-1, 2-3, 2-4) |
| `Slope` | `SlopeTrans` (TRUNCLIN, TRUNCSIN, RUSLE) and `soilLoss_RKSC` |
| `Scores` | `calcSoilSensScore`, `calcFlowScore`, `calcSinkScore`, `calcKarstScore`, `calcPositionScore`, `calcImpactScore`, `ScenarioScore` |
| `Priority` | `calcImportanceScore`, `calcPriorityScores` |

Where the source works step by step, the model is imperative:

- `CurveNumber.AddCurveNumberFields` is the loop that adds the four curve-number fields to the attribute table.
- `Soils.SsurgoToRaster` is the loop that rasterizes each geodatabase and skips failures.
- `Priority.ImportanceScore` is the loop that builds the weighted processing list.
- `Priority.OutputPathsAsWritten` and `Priority.OutputPathsCorrected` are the loop that adds the name tag to the output paths.

Each method is proved equal to a specification function, and the properties are proved about that function.

Two details of the curve-number lookup:

- The curve-number table has the 16 land-cover classes the code lists for each group. The constants `CurveNumber.TableA` to `CurveNumber.TableD` are the dictionaries of groups A to D (WtrshdImpact_Functions.py:406-421, 425-440, 444-459 and 463-478).
- A constant land-cover class missing from the table raises a `KeyError` (WtrshdImpact_Functions.py:516). It does not get the default 0 that the raster branch gives (`CurveNumber.CurvNum`).

## Model

| member | source | states |
|---|---|---|
| Grids.EnvMask | WtrshdImpact_Functions.py:599-600 | with a processing mask, a cell is NoData exactly where the input or the mask is NoData; every other cell is unchanged |
| Rescale.TruncVals | WtrshdImpact_Functions.py:41-42 | the cut-offs lie inside the data range [min, max] and inside mean ± numSD·sd; each is one of its two candidates; they are ordered whenever min ≤ mean ≤ max, sd ≥ 0 and numSD ≥ 0 |
| Rescale.TruncInt | WtrshdImpact_Functions.py:756 | `int()` truncates toward zero: floor for non-negative values, ceiling for negative ones |
| Rescale.LinearRescale | WtrshdImpact_Functions.py:698-699 | the from-scale value at or below the lower threshold, the to-scale value at or above the upper one, proportional in between (the cross-multiplied linear relation), and always between the two scale ends |
| Rescale.RescaleMonotone | WtrshdImpact_Functions.py:614-615 | the rescale keeps the order of values on an increasing scale (1 to 100) and reverses it on a decreasing one (100 to 1) |
| Rescale.RescaleContinuous | WtrshdImpact_Functions.py:698 | the linear part meets both constant parts at the thresholds |
| Rescale.RescaleGrid | WtrshdImpact_Functions.py:615 | `RescaleByFunction` keeps NoData cells as NoData and maps each data cell through the rescale, so every data cell lies between the scale ends |
| CellStats.Values | WtrshdImpact_Functions.py:859 | the DATA option's filtering: the values taken are exactly those of the cells with data, never more values than cells |
| CellStats.CellMax | WtrshdImpact_Functions.py:842 | MAXIMUM with DATA: NoData iff every input is NoData; otherwise one of the inputs and at least every input value |
| CellStats.CellMin | WtrshdImpact_Functions.py:1007 | the minimum over data cells: NoData iff there is no data; otherwise one of the cells and at most every cell value |
| CellStats.CellMeanBounds | WtrshdImpact_Functions.py:859 | MEAN with DATA is NoData iff every input is NoData, and otherwise lies between the smallest and the largest input value present |
| CellStats.MeanOfTwo | WtrshdImpact_Functions.py:820 | the two-raster mean is the average where both have data, the single value where only one has, NoData where neither has |
| CellStats.CellSumNoData | WtrshdImpact_Functions.py:914 | SUM with DATA is NoData exactly when every input is NoData |
| CellStats.CellSumSingle | WtrshdImpact_Functions.py:912-916 | summing a single raster gives the raster itself, so the one-layer shortcut agrees with CellStatistics |
| CellStats.SumNonNegative | WtrshdImpact_Functions.py:914 | a sum over non-negative inputs is non-negative |
| Soils.HydroGroupNum | WtrshdImpact_Functions.py:108-124 | the result is in 1..4; null maps to 4 (D); the lookup succeeds iff the value is null or its last character is A, B, C or D, and otherwise fails with the key it looked up: the last character of a longer code, or the value itself when it has at most one character |
| Soils.GroupNumberRoundTrip | WtrshdImpact_Functions.py:109-113 | A, B, C, D map to 1, 2, 3, 4, and a single letter mapping to g is g's letter |
| Soils.CompoundCode | WtrshdImpact_Functions.py:117-118 | a compound code maps as its last letter alone; "A/D" maps to 4 |
| Soils.HydroGroupColumn | WtrshdImpact_Functions.py:126-127 | CalculateField over the column: every row gets its group number, or the calculation fails on a row whose key is missing |
| Soils.ReplaceNull | WtrshdImpact_Functions.py:196-201 | a null K-factor becomes 0.3 and a present value is kept |
| Soils.KFactorColumn | WtrshdImpact_Functions.py:203-204 | after the calculation no null is left, and present values are unchanged |
| Soils.SuccessesMembers | WtrshdImpact_Functions.py:230-239 | the raster list holds exactly the rasters that were produced, and is empty iff every geodatabase failed |
| Soils.MaxGrid | WtrshdImpact_Functions.py:242 | every cell is the MAXIMUM-with-DATA of the stack at that cell |
| Soils.MergeSpec | WtrshdImpact_Functions.py:227-242 | an error iff no geodatabase was rasterized; otherwise every cell is at least each successful raster's value there and is one of them; failures play no part |
| Soils.SsurgoToRaster | WtrshdImpact_Functions.py:227-242 | the loop that appends successes and skips failures, followed by the cell maximum, computes `MergeSpec` |
| CurveNumber.GroupOf | WtrshdImpact_Functions.py:512 | the nested Con's tests: raster value 1, 2, 3 or 4 selects group A, B, C or D, in the order of the group list; any other value selects none |
| CurveNumber.CurveNumberOf | WtrshdImpact_Functions.py:500-512 | for a listed class, the selected group's dictionary entry; for any other code, 0 |
| CurveNumber.LookupOrZero | WtrshdImpact_Functions.py:500-505 | the `curvnum` code block returns the dictionary entry for a listed code and 0 for any other code |
| CurveNumber.TableKeys | WtrshdImpact_Functions.py:405-479 | each group's dictionary lists exactly the same 16 land-cover classes |
| CurveNumber.CurveNumberRange | WtrshdImpact_Functions.py:405-479 | every curve number, including the default 0, lies in 0..100 |
| CurveNumber.NoRunoffClasses | WtrshdImpact_Functions.py:500-505 | classes 11, 32, 90 and 95, and every unlisted code, get 0 in every group |
| CurveNumber.CurveNumberByGroup | WtrshdImpact_Functions.py:405-479 | for every land cover the curve number never decreases from group A to group D |
| CurveNumber.BareLand | WtrshdImpact_Functions.py:411 | bare land (31) has curve numbers 77, 86, 91 and 94 in groups A to D |
| CurveNumber.CurveNumberColumn | WtrshdImpact_Functions.py:507-508 | every row's cn field is the code-block lookup of that row's VALUE |
| CurveNumber.FieldNamesDistinct | WtrshdImpact_Functions.py:487 | the names cn_A, cn_B, cn_C and cn_D are pairwise distinct |
| CurveNumber.FieldsAfterAll | WtrshdImpact_Functions.py:486-508 | after the four rounds the table has its old fields plus the four cn fields, each holding its group's column, and every other field is unchanged |
| CurveNumber.AddCurveNumberFields | WtrshdImpact_Functions.py:486-508 | the loop over the groups (deleting an existing field, then adding and calculating it) yields exactly that table |
| CurveNumber.CurveNumberCell | WtrshdImpact_Functions.py:512 | the nested Con: data iff land cover and group are present and the group is 1..4; the value is that group's table entry for the cell's class, which lies in 0..100 |
| CurveNumber.CurvNum | WtrshdImpact_Functions.py:484-516 | a land-cover raster gives the per-cell lookup; a constant class gives the same lookup for that class, and fails iff the class is not in the table |
| Runoff.RetentionCell | WtrshdImpact_Functions.py:563 | S is NoData exactly where CN is NoData, and S is 1000 where CN is 0 (the guard's branch); the value at any other CN is stated by `Runoff.RetentionInverse` |
| Runoff.RetentionInverse | WtrshdImpact_Functions.py:563 | away from the guard, S inverts the curve-number formula CN = 1000/(S + 10) |
| Runoff.RetentionExamples | WtrshdImpact_Functions.py:563 | CN 80 gives S 2.5 and CN 100 gives S 0 |
| Runoff.RetentionDecreasing | WtrshdImpact_Functions.py:563 | a larger positive curve number retains strictly less |
| Runoff.RetentionNonNegative | WtrshdImpact_Functions.py:563 | curve numbers in (0, 100] have S ≥ 0 |
| Runoff.ScsRunoff | WtrshdImpact_Functions.py:571 | Q is 0 when P − 0.2S ≤ 0; otherwise Q·(P + 0.8S) = (P − 0.2S)²; NoData only on a zero denominator |
| Runoff.ScsRunoffBounds | WtrshdImpact_Functions.py:571 | with S ≥ 0: Q is defined and non-negative, positive iff P exceeds the initial abstraction 0.2S, at most P − 0.2S, and never more than the rainfall |
| Runoff.ScsRunoffMonotone | WtrshdImpact_Functions.py:571 | more rain never gives less runoff, and above the initial abstraction it gives strictly more |
| Runoff.RunoffCell | WtrshdImpact_Functions.py:571 | depth 0 where CN is 0 whatever the rain; NoData where CN is NoData, or where CN ≠ 0 and the rain is NoData; otherwise the SCS equation with S from CN |
| Runoff.RunoffCellBounds | WtrshdImpact_Functions.py:571 | for CN in [0, 100]: the depth has data exactly where it should, and lies between 0 and the rainfall |
| Runoff.FullRunoff | WtrshdImpact_Functions.py:571 | CN 100 with 2 inches of rain gives 2 inches of runoff |
| Runoff.OpenWaterNoRunoff | WtrshdImpact_Functions.py:571 | open water (class 11) produces no runoff in any soil group |
| Runoff.RainCell | WtrshdImpact_Functions.py:554-557 | the rainfall (constant or raster) is multiplied by convFact; skipping the product when convFact is 1 changes nothing |
| Runoff.VolumeFactor | WtrshdImpact_Functions.py:579 | the default cell area of 10⁶ cm² gives 2540 litres per inch |
| Runoff.RunoffOutputsOf | WtrshdImpact_Functions.py:571-580 | the depth raster is the per-cell runoff; the volume raster exists iff vol is 1 and is then 0.00254·cellArea times the depth |
| Runoff.EventRunoff | WtrshdImpact_Functions.py:559-580 | as written: succeeds iff inputType is "CN", with the retention raster and the outputs above |
| Runoff.RetentionPathFails | WtrshdImpact_Functions.py:566-571 | the "RET" input type never yields a depth raster as written |
| Runoff.RunoffFromRetentionCell | WtrshdImpact_Functions.py:567-571 | the intended retention-input depth is the SCS equation on the given S |
| Runoff.EventRunoffCorrected | WtrshdImpact_Functions.py:559-580 | the CN path is exactly as written; the RET path computes the depth from the given retention raster; the volume is as on the CN path |
| Runoff.RetentionPathAgrees | WtrshdImpact_Functions.py:563-571 | feeding S computed from CN back in as a retention input gives the same cell depth, wherever CN ≠ 0 or the rain is at most 200 inches |
| Runoff.EventRunoffPathsAgree | WtrshdImpact_Functions.py:559-571 | on whole rasters, the corrected RET path applied to the CN path's retention raster reproduces the CN path's depth wherever CN ≠ 0 |
| Slope.ParseInputType | WtrshdImpact_Functions.py:268-279 | DEG/DEGREES, PERC/PERCENT and ELEV/ELEVATION are the accepted input types, each exactly |
| Slope.ParseTransform | WtrshdImpact_Functions.py:281-289 | TRUNCLIN, TRUNCSIN and RUSLE are the accepted transformations, each exactly |
| Slope.UnitOf | WtrshdImpact_Functions.py:268-276 | only a degree input is worked in degrees; percent and elevation inputs are worked in percent grade |
| Slope.CheckParameters | WtrshdImpact_Functions.py:268-289 | an invalid input type gives an error before the transformation is looked at; then an invalid transformation gives an error; otherwise both are parsed |
| Slope.TruncLinScore | WtrshdImpact_Functions.py:313-316 | 0 at or below minSlope, 100 above maxSlope, and otherwise r·(max − min) = 100·(s − min) |
| Slope.TruncLinIsRescale | WtrshdImpact_Functions.py:305-316 | with ordered thresholds the score is the truncated linear rescale from 0 to 100 |
| Slope.TruncLinRange | WtrshdImpact_Functions.py:313-316 | the score always lies in [0, 100] |
| Slope.TruncLinMonotone | WtrshdImpact_Functions.py:313-316 | a steeper slope never scores lower |
| Slope.TruncLinContinuous | WtrshdImpact_Functions.py:313-316 | the score is 0 at and below minSlope, follows the linear formula in between, is 100 at maxSlope itself and 100 above it, so neither threshold has a jump |
| Slope.TruncLinDegrees | WtrshdImpact_Functions.py:307-308 | with the 1 and 30 degree thresholds, 1° scores 0, 15.5° scores 50 and 30° scores 100 |
| Slope.TruncSinScore | WtrshdImpact_Functions.py:319-325 | the truncated sine score never exceeds 100; below a sine of 1/2 (30°) it is 200·sine rounded half up, the whole number r with r ≤ 200·sine + 0.5 < r + 1 |
| Slope.TruncSinRange | WtrshdImpact_Functions.py:318-325 | for a sine in [0, 1] the score is a whole number in [0, 100], and it is 100 once the sine reaches 1/2 (30°) |
| Slope.RusleS | WtrshdImpact_Functions.py:329-336 | 10.8·sin + 0.03 below the inflection and 16.8·sin − 0.50 from it on |
| Slope.RusleMonotone | WtrshdImpact_Functions.py:329-336 | S never decreases with the slope, provided the sine does and reaches 0.53/6 by the inflection |
| Slope.Thresholds | WtrshdImpact_Functions.py:307-312 | the thresholds are 1 and 30 in degree units, and their supplied percent-grade equivalents otherwise |
| Slope.Inflect | WtrshdImpact_Functions.py:329-334 | the RUSLE inflection is 9 in percent grade (and its supplied degree equivalent otherwise) |
| Slope.TransformCell | WtrshdImpact_Functions.py:305-336 | NoData stays NoData; otherwise the chosen transformation in the input's unit, with TRUNCLIN in [0, 100] |
| Slope.TransformGrid | WtrshdImpact_Functions.py:305-339 | the output raster is the per-cell transformation |
| Slope.SlopeTransAsWritten | WtrshdImpact_Functions.py:298-303 | as written: a parameter error as checked; otherwise success iff the input is elevation, transforming the derived percent slope |
| Slope.SlopeInputFails | WtrshdImpact_Functions.py:302-303 | a degree slope with TRUNCLIN fails on the unbound slope variable |
| Slope.SlopeTransCorrected | WtrshdImpact_Functions.py:249-339 | fails iff the parameters are invalid; a slope input is transformed in its own unit; an elevation input is as written |
| Slope.SlopeTransCorrectedScores | WtrshdImpact_Functions.py:298-316 | with the correction every valid input type gives, for TRUNCLIN, a raster of the slope's size with scores in [0, 100] exactly where the slope has data |
| Slope.SoilLossCell | WtrshdImpact_Functions.py:372 | R·K·S·C, NoData if any factor is |
| Slope.SoilLossRksc | WtrshdImpact_Functions.py:365-372 | the product per cell, with C a raster or a constant |
| Slope.SoilLossMonotone | WtrshdImpact_Functions.py:372 | with non-negative factors the product is non-negative and grows with the erodibility K |
| Scores.HalfSumCell | WtrshdImpact_Functions.py:628 | (a + b)/2, NoData if either input is NoData |
| Scores.TruncatedScore | WtrshdImpact_Functions.py:608-622 | each potential is rescaled to 1..100 between its three-standard-deviation cut-offs, and has data exactly where the input and the mask do |
| Scores.SoilSensScore | WtrshdImpact_Functions.py:608-628 | the soil-loss and runoff scores are the truncated rescales; the sensitivity is their cellwise half-sum |
| Scores.SoilSensRange | WtrshdImpact_Functions.py:613-628 | the sensitivity has data exactly where both potentials and the mask do, and lies in [1, 100] |
| Scores.SoilSensMonotone | WtrshdImpact_Functions.py:614-628 | more soil-loss potential never lowers the sensitivity |
| Scores.FlowLengthScore | WtrshdImpact_Functions.py:698-699 | the flow-length score is the 100-to-1 rescale and lies in [1, 100] before any discount |
| Scores.Discounted | WtrshdImpact_Functions.py:702-706 | no headwaters raster keeps the score; indicator 0 multiplies it by the discount; any other indicator keeps it; a NoData indicator masks the cell out |
| Scores.DiscountMonotone | WtrshdImpact_Functions.py:706 | a non-negative discount keeps the order of scores |
| Scores.FlowCell | WtrshdImpact_Functions.py:698-706 | one cell of calcFlowScore: data iff the flow length has data and the headwater indicator is not NoData; a cell that is not discounted scores in [1, 100] |
| Scores.FlowScore | WtrshdImpact_Functions.py:693-706 | every cell is the flow-length score after the headwater discount |
| Scores.FlowScoreBounds | WtrshdImpact_Functions.py:698-706 | 100 within minDist and 1 beyond maxDist; with a discount in [0, 1] every score is in [0, 100], and a non-headwater cell never outscores a headwater cell at the same distance |
| Scores.FlowDiscountDefault | WtrshdImpact_Functions.py:678-706 | with the defaults, a non-headwater cell next to water scores 90 and a headwater cell 100 |
| Scores.FlowScoreMonotone | WtrshdImpact_Functions.py:698-706 | a longer flow path never raises the score |
| Scores.SinkCutoff | WtrshdImpact_Functions.py:754-756 | the cut-off is a whole number; for a non-negative upper truncation bound it is that bound's floor (at most the bound, within 1 of it), for a negative one its ceiling; it never exceeds a non-negative maximum density |
| Scores.SinkScore | WtrshdImpact_Functions.py:754-761 | the density is rescaled from 0 (score 1) to the cut-off (score 100) inside the clip mask, and lies in [1, 100] |
| Scores.SinkScoreEnds | WtrshdImpact_Functions.py:757-761 | no density scores 1, and a density at or above the cut-off scores 100 |
| Scores.KarstScore | WtrshdImpact_Functions.py:810-828 | the distance score is the 100-to-1 rescale in the clip mask; without sinkholes it is the karst score, with them the karst score is the mean of the two |
| Scores.KarstScoreRange | WtrshdImpact_Functions.py:810-822 | the karst score has data exactly in the mask where either input does, and stays in the inputs' range up to 100 |
| Scores.PositionScore | WtrshdImpact_Functions.py:842 | every cell is the MAXIMUM-with-DATA of the flow and karst scores |
| Scores.PositionIsMaximum | WtrshdImpact_Functions.py:842 | the position score is NoData only where both inputs are; otherwise it is one of them and at least each |
| Scores.ImpactScore | WtrshdImpact_Functions.py:859 | every cell is the MEAN-with-DATA of the position and soil sensitivity scores |
| Scores.ImpactIsMean | WtrshdImpact_Functions.py:859 | the average where both have data, the present one otherwise, NoData where neither has; inputs in [1, 100] give an impact in [1, 100] |
| Scores.Clamp100 | WtrshdImpact_Functions.py:961 | the clamp keeps [0, 100] values and sends larger values to 100 and smaller values to 0 |
| Scores.ScenarioCell | WtrshdImpact_Functions.py:954-961 | the CONS and other-perspective formulas, clamped to [0, 100]; NoData on missing inputs or equal worst and best cases |
| Scores.ScenarioComplement | WtrshdImpact_Functions.py:954-961 | the conservation and restoration scores of a cell add up to 100; the worst case scores 0 and the best case 100 for conservation |
| Scores.ScenarioScore | WtrshdImpact_Functions.py:945-961 | every cell is the scenario cell under the optional mask, in [0, 100] |
| Priority.Weighted | WtrshdImpact_Functions.py:901-906 | the weighted counts are count·weight per cell; skipping the product for weight 1 changes nothing |
| Priority.WeightedLayers | WtrshdImpact_Functions.py:883-909 | the processing list holds the weighted rasters of the layers, in order |
| Priority.WeightedSum | WtrshdImpact_Functions.py:912-916 | the weighted sum is SUM-with-DATA at every cell, for the one-layer shortcut as for CellStatistics |
| Priority.SumNoData | WtrshdImpact_Functions.py:912-916 | a cell of the sum is NoData iff no layer covers it; the sum has no maximum iff no layer covers any cell |
| Priority.ScoreCell | WtrshdImpact_Functions.py:922 | 100·sum/max, NoData for NoData or a zero maximum |
| Priority.ImportanceSpec | WtrshdImpact_Functions.py:883-922 | fails on an empty list, fails iff no layer has any data; otherwise has the raster's size and every cell is 100·sum/max of the weighted sum at that cell, the maximum taken over the whole sum |
| Priority.ImportanceOrder | WtrshdImpact_Functions.py:921-922 | a cell whose weighted sum is 0 scores 0, and with a positive maximum a cell with a larger weighted sum never scores lower |
| Priority.ScoreCellOrder | WtrshdImpact_Functions.py:922 | 100·sum/max sends 0 to 0 and, for a positive maximum, keeps the order of the sums |
| Priority.ImportanceScore | WtrshdImpact_Functions.py:883-922 | the loop that builds procList, then sums and scales, computes `ImportanceSpec` |
| Priority.ImportanceNoData | WtrshdImpact_Functions.py:912-922 | with a non-zero maximum, a cell of the score is NoData iff no impact area covers it |
| Priority.ImportanceRange | WtrshdImpact_Functions.py:919-922 | with non-negative counts and weights every score is in [0, 100], and when any cell has a score some cell scores exactly 100 |
| Priority.ParseRescale | WtrshdImpact_Functions.py:999-1015 | "SLICE" and "STANDARD" select their branches; anything else uses the raw scores |
| Priority.GeneralCell | WtrshdImpact_Functions.py:995 | importance/100 × impact, NoData if either is NoData |
| Priority.GeneralPriority | WtrshdImpact_Functions.py:992-995 | the constant 1 gives the impact score itself; a raster gives the per-cell product; any other constant fails |
| Priority.GeneralPriorityBounds | WtrshdImpact_Functions.py:992-995 | an importance in [0, 100] keeps the priority between 0 and the impact, and an importance of 100 equals the constant 1 |
| Priority.Masked | WtrshdImpact_Functions.py:1019-1027 | a masked priority has data exactly where the mask is a non-zero value and the score has data, and there equals the score |
| Priority.MaskAll | WtrshdImpact_Functions.py:1019-1027 | the three priority rasters are the score under the three masks |
| Priority.PriorityScoresAsWritten | WtrshdImpact_Functions.py:992-1027 | as written: SLICE uses the slices and the fallback uses the general priority; STANDARD always fails; the masks are applied to the score |
| Priority.StandardAlwaysFails | WtrshdImpact_Functions.py:1004-1010 | the STANDARD option never yields priorities as written |
| Priority.StandardRescaled | WtrshdImpact_Functions.py:1006-1011 | the intended rescale maps each cell to 1..100 between the raster's minimum and maximum, keeps NoData, and fails only on a raster with no data |
| Priority.StandardRescaledEnds | WtrshdImpact_Functions.py:1006-1011 | the cell at the minimum scores 1, the cell at the maximum scores 100 (when the two differ), and the order of cells is kept |
| Priority.PriorityScoresCorrected | WtrshdImpact_Functions.py:999-1027 | agrees with the code as written except under STANDARD, where it succeeds iff the rescale does and masks the rescaled priority |
| Priority.MasksShareScore | WtrshdImpact_Functions.py:1019-1027 | a cell inside two masks gets the same priority in both outputs; outside a mask it gets none; inside it gets the score |
| Priority.Paths | WtrshdImpact_Functions.py:980-983 | the four output paths are the geodatabase, the separator and the base names |
| Priority.OutputPathsAsWritten | WtrshdImpact_Functions.py:985-987 | as written, the tag loop leaves the paths as they were, whatever the tag |
| Priority.TaggedPaths | WtrshdImpact_Functions.py:985-987 | each intended path ends in "_" and the tag |
| Priority.OutputPathsCorrected | WtrshdImpact_Functions.py:985-987 | with the correction, the paths are untagged for "NONE" and tagged otherwise |
| Priority.TagDistinguishes | WtrshdImpact_Functions.py:985-987 | a tagged path differs from the untagged one and from every other tag's path |

## Left out

- Geoprocessing and I/O are not modelled. `Raster()`, `.save()`, `JoinField`, `AddField`, `DeleteField` and `ListFields` are foreign calls. So are `PolyToRaster`, `CountOverlappingFeatures`, `FeatureToPoint` and `ProjectToMatch_vec`, and the Slope, KernelDensity, EucDistance and Lookup tools. The model takes their results as input rasters or attribute columns.
- Raster statistics (`.minimum`, `.maximum`, `.mean`, `.standardDeviation`) feeding `getTruncVals` are given as a `Stats` value, because their computation belongs to the raster engine. The minimum and maximum read in `calcImportanceScore` and in the STANDARD branch are computed from the cells instead (`CellMax`, `CellMin`).
- The equal-area quantile `Slice` is not modelled. The SLICE branch takes its result as an input raster.
- Floating-point trigonometry is supplied as the `Slope.Trig` value, because Dafny reals have no `tan`, `sin` or `atan`. It provides the percent-grade thresholds (`100·tan`), the degree inflection (`atan`) and the sine of the slope angle.
- Slope.TruncSinRange: stated for a supplied sine in [0, 1], not for `Sin(ATan(...))` itself.
- Slope.RusleMonotone: needs the supplied sine to reach 0.53/6 at the inflection, because the sine itself is not modelled.
- Floating point is not modelled: cells are exact reals, so there is no rounding and no 32-bit float storage.
- The SHORT fields (HydroGrpNum and the cn fields) hold small integers, so their width does not matter here.
- The processing extent, snap raster, cell size and `overwriteOutput` settings are not modelled, and neither is `print`.
- The processing mask is modelled per call, as the mask a function sets for itself. In the system `arcpy.env.mask` is process-wide: it is set at WtrshdImpact_Functions.py:600, 653, 694, 730, 760, 790, 810 and 946 and never reset. A call given the mask "NONE", and the functions that set no mask (`calcPositionScore`, `calcImpactScore`, `calcImportanceScore`, `calcPriorityScores`), therefore run under whatever mask an earlier call left behind. The model applies no mask in those cases; the order of calls is outside the scoring arithmetic.
- Soils.SsurgoToRaster: assumes the input geodatabases have distinct base names. Each raster is written to the scratch geodatabase under its base name with overwriting on (WtrshdImpact_Functions.py:221, 233-235), so two geodatabases of the same name in different folders alias one raster. The merged maximum is then the later raster alone, while `Soils.MergeSpec` takes the maximum of both.
- Priority.ImportanceScore: assumes the impact-area inputs have distinct base names. The count and weighted rasters are named after the input's base name (WtrshdImpact_Functions.py:887-890), so two inputs of the same name alias one raster path, which the processing list then holds twice. The sum counts the later weighted raster twice, while `Priority.ImportanceSpec` adds each layer's own weighted count once.
- `sys.exit()` in SlopeTrans is modelled as an error result, and so are Python's `KeyError` and unbound-name errors.
- The `float()` conversion of the K-factor column (WtrshdImpact_Functions.py:180-181) is not modelled, because it parses text. The model starts from the numeric column.
- The curve-number dictionaries are constants. Filling them entry by entry (WtrshdImpact_Functions.py:399-479) leaves no observable intermediate state.
- The attribute table is a map from field names to columns. Deleting an existing cn field and re-adding it both come down to replacing that map entry.
- `makeHdwtrsIndicator`, `ProjectToMatch_vec` and the workflow script are not part of this model. The workflow script is orchestration with fixed paths.
- Saving `genPriority` only when an importance raster is given (WtrshdImpact_Functions.py:992-996) is output handling, so outputs are the returned rasters whether or not they are saved.
- Priority.ImportanceRange: assumes non-negative counts and weights; the source states no such requirement, but feature counts are never negative.
- Runoff.RetentionPathAgrees: excludes CN-0 cells with more than 200 inches of rain, where the CN path's guard gives 0 and the SCS equation on S = 1000 does not.

## Findings

| source | as written | input that shows it | evidently intended | confidence | as-written member | corrected member |
|---|---|---|---|---|---|---|
| WtrshdImpact_Functions.py:303 | a slope input is read from `in_Slope`, which is not yet assigned | inputType "DEG", transType "TRUNCLIN": the slope variable is unbound | use `in_Raster` as the slope raster | not executed | Slope.SlopeTransAsWritten, Slope.SlopeInputFails | Slope.SlopeTransCorrected, Slope.SlopeTransCorrectedScores |
| WtrshdImpact_Functions.py:571 | the depth expression reads `curvNum`, which is assigned only when inputType is "CN" | inputType "RET": the name is unbound | on the retention path, compute the depth from the given retention raster | not executed | Runoff.EventRunoff, Runoff.RetentionPathFails | Runoff.EventRunoffCorrected, Runoff.EventRunoffPathsAgree |
| WtrshdImpact_Functions.py:1010 | the STANDARD branch passes `rmin` and `rmax`, but the statistics were stored in `rMin` and `rMax` | rescale "STANDARD": the names are unbound | rescale linearly from the minimum (1) to the maximum (100) | not executed | Priority.PriorityScoresAsWritten, Priority.StandardAlwaysFails | Priority.PriorityScoresCorrected, Priority.StandardRescaledEnds |
| WtrshdImpact_Functions.py:986-987 | the loop rebinds its loop variable, so the output paths never receive the name tag | nameTag "run1": the outputs are still saved as genPriority and so on | append "_" and the tag to each output path | not executed | Priority.OutputPathsAsWritten | Priority.OutputPathsCorrected, Priority.TagDistinguishes |
