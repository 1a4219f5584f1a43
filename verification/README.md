# Comfort charts: a Dafny model of the comfort-dash chart and results logic

comfort-dash is a web tool that evaluates thermal comfort (PMV/PPD under
ASHRAE 55 and EN 16798 / ISO 7730, and adaptive comfort). It draws comfort
zones on several charts. This project models the deterministic core behind
those charts and the results panel, over Dafny `real`, and proves its
properties:

- **Bisection** (`bisection.dfy`): `find_tdb_for_pmv`. It inverts the PMV
  index by bisection over a fixed dry-bulb interval. A PMV evaluation that
  raised becomes NaN, which is modelled as `None`.
- **Curves** (`curves.dfy`): `curve_fit`, which resamples a fitted quadratic,
  and the stitching of a lower and a reversed upper curve into one polygon.
- **Grids** (`grids.dfy`): the grid and band logic of the charts.
  - `t_rh_pmv` and `speed_temp_pmv` record a root only where the search
    succeeded, and pair neighbouring PMV limits into bands. A search that
    raises anything but `ValueError` aborts the chart. A chart whose every
    search was skipped raises `KeyError`. The ASHRAE t-rh chart in Compare
    mode adds the second input's band.
  - `psy_pmv` builds a table of bisection results, converts it to humidity
    ratios, fits both rows of each band and joins them into an outline.
  - `adaptive_chart` builds the category quadrilaterals.
- **Heat losses** (`heat_loss.dfy`): `pmv_pdd_6_heat_loss`, the ISO 7730
  Annex D PMV program split into six heat-loss channels, and the
  `get_heat_losses` series.
- **Body temperature** (`body_temperature.dfy`): the relaxation loop of
  `SET_outputs_chart`. It runs 60 outer steps, each with an inner
  clothing-temperature loop capped at 150 passes, and a body-temperature
  weight that changes after the first step.
- **Results** (`results.dfy`): the results panel.
  - The ASHRAE (±0.5) and EN (±0.7) compliance checks.
  - The sensation and category labels.
  - The panel layout of `display_results`, as written and as evidently
    intended.
  - `ComfortRange` and `gain_adaptive_hover_text`.
- **Home page** (`home_page.dfy`):
  - the chart dispatch of `update_chart`;
  - the input-field choice of `update_inputs`;
  - the run-once URL restore of `update_page_from_url`;
  - the unit toggle;
  - the numeric path of the hover annotation.
- **Shared helpers**: `common.dfy` (Option, Result, units), `numerics.dfy`
  (the abstract maths primitives), `first_hit.dfy` (the first index at which
  a capped loop stops, and collecting a series of fallible calls) and
  `selections.dfy` (the model, chart and functionality choices).

Foreign code is a function-typed parameter, never a guessed formula. This
covers:

- pythermalcomfort's `pmv`, `two_nodes`, `cooling_effect`,
  `adaptive_en`/`adaptive_ashrae`, `psy_ta_rh`, `p_sat` and `mapping`;
- scipy's `brentq` and numpy's `polyfit`;
- the unit converters;
- `exp`, `sqrt`, fractional powers and Python's `round`.

A `brentq` search is a `Search`, with three outcomes:

- `Success(Some(t))`: a root at `t`;
- `Success(None)`: the search raised `ValueError`, which the chart loops
  catch and skip;
- `Failure(e)`: any other exception, which escapes the loops.

Any other raised exception is also a `Failure` of a `Result`.

## Model

| member | source | states |
|---|---|---|
| Bisection.StartBracket | components/charts.py:1119-1122 | The search starts on [10, 40] in SI and on [50, 96.8] otherwise: a non-empty interval 30 or 46.8 wide |
| Bisection.Narrow | components/charts.py:1144-1149 | A rejected evaluation at the midpoint halves the interval, which stays nested. A value below the target raises `low` only. NaN, or a value at or above the target, lowers `high` only |
| Bisection.BracketAfterNested | components/charts.py:1125-1151 | After k rejected evaluations the interval is non-empty and nested in the starting one, and exactly 2^k times narrower |
| Bisection.FindTdbForPmv | components/charts.py:1105-1155 | Returns the rounded midpoint of the first probe with abs(index - target) < tol. It succeeds iff one of the first max_iter probes is accepted. Every earlier probe was rejected, and the point lies strictly inside the starting interval. Otherwise it raises after exactly max_iter evaluations |
| Bisection.AcceptedOutcome | components/charts.py:1125-1145 | When probe k is the first accepted one and k < max_iter, the search returns that probe's midpoint rounded to two places, after k + 1 evaluations |
| Bisection.ExhaustedOutcome | components/charts.py:1125-1155 | When none of the first max_iter probes is accepted, the search raises after max_iter evaluations, or none when max_iter is not positive |
| Bisection.FirstProbeIsCentre | components/charts.py:1119-1126 | The first temperature tested is the centre of the starting interval: 25 in SI, 73.4 otherwise |
| Bisection.ProbesStayInside | components/charts.py:1119-1151 | Every probe lies strictly inside the starting interval, and the interval left after k probes is the starting width over 2^k |
| Bisection.FindTdbDeterministic | components/charts.py:1105-1155 | The search keeps no hidden state: two outcomes (result and number of evaluations) allowed for the same inputs are equal |
| Curves.Linspace | components/charts.py:1161 | `np.linspace(lo, hi, n)` has n points, starts at lo, ends at hi, with constant step (hi - lo)/(n - 1) |
| Curves.LinspaceAscends | components/charts.py:1161 | With lo <= hi the points ascend and stay within [lo, hi] |
| Curves.MinOf | components/charts.py:1161 | `min(x)` is an element of x no greater than any other, and raises on an empty list |
| Curves.MaxOf | components/charts.py:1161 | `max(x)` is an element of x no smaller than any other, and raises on an empty list |
| Curves.CurveFit | components/charts.py:1158-1163 | `curve_fit` succeeds iff polyfit succeeds on non-empty x. It returns exactly n x-values with spacing (max(x) - min(x))/(n - 1), and each y is the fitted quadratic at its x |
| Curves.CurveFitSpansInput | components/charts.py:1158-1163 | The resampled x-values start at min(x), end at max(x), ascend and stay between the two |
| Curves.ReverseInvolution | components/charts.py:1256-1257 | Reversing a list twice gives it back |
| Curves.Stitch | components/charts.py:1256-1257 | `concatenate([lower, upper[::-1]])` has length len(lower) + len(upper). Its first part is the lower curve, element by element; the rest is the upper curve backwards, ending at upper[0] |
| Curves.Join | components/charts.py:1363-1370 | The outline of a band, built from x- and y-lists, has as many xs as ys. The lower curve's vertices come first, then the upper curve's in reverse order |
| Curves.JoinOnCurves | components/charts.py:1253-1257 | When both curves lie on their quadratics, every vertex of the outline lies on the quadratic of the curve it came from |
| Curves.ReverseKeepsPairs | components/charts.py:1256-1257 | Reversing the x-list and the y-list together reverses the list of points, so each point keeps its coordinates |
| Curves.StitchKeepsPairs | components/charts.py:1256-1257 | Stitching x-lists and y-lists separately outlines the same polygon as stitching the (x, y) points |
| Grids.RhValues | components/charts.py:1198 | The humidity axis has 11 values, from 0 to 100 |
| Grids.UpperRhValues | components/charts.py:1220 | The descending humidity list has 11 values, from 100 to 0 |
| Grids.UpperRhIsReverse | components/charts.py:1219-1220 | The descending humidity list (100..0) is the ascending one (0..100) reversed |
| Grids.SpeedValues | components/charts.py:1580 | `np.arange(0.1, 0.9, 0.1)` gives 8 ascending speeds, from 0.1 to 0.8 |
| Grids.RowPoints | components/charts.py:475-505 | A point of a limit is recorded iff the root search at that axis value succeeded, with the found temperature. Failures are skipped, never filled in |
| Grids.RowPointsFull | components/charts.py:476-503 | When every search succeeds, the row has one point per axis value, in axis order |
| Grids.Collect | components/charts.py:473-507 | The data frame holds exactly the successful (limit, axis value, temperature) triples over all limits |
| Grids.OfLimit | components/charts.py:518-519 | `df[df["pmv_limit"] == limit]` keeps exactly the points of that limit, in order |
| Grids.CollectSelects | components/charts.py:473-519 | With distinct limits, selecting limit i from the data frame gives exactly the row found for limit i |
| Grids.TRhLimits | components/charts.py:456-467 | Six ascending limits for the "iso" model, the ASHRAE pair [-0.5, 0.5] otherwise |
| Grids.TRhColours | components/charts.py:456-467 | There is one colour fewer than limits, so every band has a colour |
| Grids.CollectEmpty | components/charts.py:473-507 | The data frame has no rows exactly when no search at any (limit, axis value) found a root |
| Grids.RowEscaped | components/charts.py:476-505 | The searches of one limit raise nothing uncaught iff every one returned or raised `ValueError`. Otherwise the escaping error is that of the first such search, in axis order |
| Grids.Escaped | components/charts.py:475-506 | The loops of a chart run to the end iff no search at any (limit, axis value) raised anything but `ValueError`. Otherwise the escaping error is that of some limit's row |
| Grids.EscapedIsFirst | components/charts.py:475-506 | The escaping error is that of the first limit, in limit order, whose row raised. Every earlier row ran to its end |
| Grids.FrameEmpty | components/charts.py:473-519 | The loops raise, or leave a frame with no rows, exactly when a search raised past them or every search was skipped |
| Grids.TRhBands | components/charts.py:473-542 | An exception escaping a search aborts the bands with that error. Without one, the bands either raise KeyError or give one band per neighbouring pair of limits, band i having colour i |
| Grids.TRhBandPairs | components/charts.py:473-519 | The bands raise exactly when a search raised past the loops, or when every search was skipped, because the empty frame has no `pmv_limit` column. Otherwise band i is drawn between the row of limit i and the row of limit i + 1 |
| Grids.TRhCompareBand | components/charts.py:572-611 | Only the "ashrae" chart in Compare mode gets a comparison band, in its own colour. Every other call gets none. An exception escaping the second input's searches aborts with that error, and otherwise only KeyError is raised |
| Grids.TRhCompareBandRows | components/charts.py:572-611 | The comparison band raises exactly when a search for the second input raised past the loops, or when every one was skipped. Otherwise it lies between the second input's rows of -0.5 and 0.5 |
| Grids.TRhZones | components/charts.py:448-611 | The chart's zones succeed iff both the main bands and the comparison band do, and are those two. A failure of the main bands comes first; otherwise the failure is the comparison band's |
| Grids.SpeedRecord | components/charts.py:1602-1617 | An SI record is kept as found. An IP record converts speed to ft/s and temperature to degF, and the conversion inverts. The limit is kept |
| Grids.SpeedPoints | components/charts.py:1575-1625 | An exception escaping a search aborts the chart with that error. A frame that can be selected from is non-empty, and every point in it belongs to one of the two ASHRAE limits. Without an escaping exception, only the empty frame raises, with KeyError |
| Grids.OfLimitRecords | components/charts.py:1602-1637 | Converting records keeps their limits, so selecting a limit and converting commute |
| Grids.SpeedTraces | components/charts.py:1579-1637 | The chart raises exactly when a search raised past the loops, or when every search was skipped. Otherwise each of the two traces is the row found for its limit, converted for display |
| Grids.PsyTargets | components/charts.py:1199-1202 | The ASHRAE targets are [-0.5, 0.5]; any other model gets six EN/ISO targets |
| Grids.PsyTargetsSymmetric | components/charts.py:1199-1202 | Target k is the negative of target n-1-k |
| Grids.PsyBandPairs | components/charts.py:1221-1223 | ASHRAE has one band and EN/ISO three, each pairing a lower target row with a higher one |
| Grids.PsyBandsPairOpposites | components/charts.py:1272-1277 | Every band pairs a negative target with its opposite, lower first, and each band lies inside the previous one |
| Grids.TdbRow | components/charts.py:1206-1216 | A target's row succeeds iff all 11 bisections (SI interval, tol 0.01, 100 iterations) succeed, and then holds their results in humidity order |
| Grids.TdbTable | components/charts.py:1203-1216 | The table succeeds iff every target's row does, and holds one row per target in target order |
| Grids.TdbTableShape | components/charts.py:1203-1216 | A successful table has one 11-value row per target |
| Grids.HumidityRatios | components/charts.py:1226-1233 | Each humidity ratio is psy_ta_rh's `hr` of its own (tdb, rh) point, in g/kg |
| Grids.UpperRowAligned | components/charts.py:1219-1233 | Pairing the reversed upper row with the descending humidity list gives every temperature the humidity it was solved at |
| Grids.Displayed | components/charts.py:1235-1251 | The plotted temperatures are the solved ones in SI and their converted values in IP, one for one |
| Grids.PsyOutline | components/charts.py:1253-1257 | A band outline succeeds iff both fits succeed, and then has 2 x 50 vertices |
| Grids.PsyOutlineOnCurves | components/charts.py:1253-1257 | The first 50 vertices lie on the lower row's quadratic and the last 50 on the upper row's. The outline starts and ends at the coolest temperature of each row |
| Grids.PsyBandTargets | components/charts.py:1199-1223 | Band b is bounded by the targets -t and t with t > 0, and t shrinks from band to band |
| Grids.PsyBandRows | components/charts.py:1203-1223 | In a successful table, band b's two rows are the rows found for its two targets |
| Grids.FitsInOrder | components/charts.py:1356-1361 | The chart's fits in the order they run: the lower row's fit of every band (III, II, I for EN), then the upper row's fit of every band |
| FirstHit.SequenceOfTwo | components/charts.py:1356-1361 | Running two equally long series of fits one after the other succeeds iff both do, with the values in order. A failure is a failed call of the first series, or of the second series at an index whose first-series call succeeded |
| FirstHit.SequenceAppend | components/charts.py:1356-1361 | Over two series run in turn, the first series' failure wins; otherwise the second's; otherwise both value lists, concatenated |
| Grids.LowerFitFailsFirst | components/charts.py:1356-1358 | When band k's lower fit is the first lower fit to fail, its error is band k's outline error and the first failure among the chart's fits |
| Grids.UpperFitFailsFirst | components/charts.py:1356-1361 | When every lower fit succeeded and band k's upper fit is the first upper fit to fail, its error is band k's outline error and the first failure among the chart's fits |
| FirstHit.FailingIndexOfTwo | components/charts.py:1356-1361 | A failed run of two equally long series of fits failed at some band: its first-series call failed there, or that call succeeded and its second-series call failed |
| Grids.FailedFitFailsBand | components/charts.py:1356-1370 | When a fit of the chart fails, the first failure in fitting order is also the error of some band's outline |
| Grids.FittedCurves | components/charts.py:1356-1361 | When every fit of the chart succeeds, every lower fit and every upper fit succeeds |
| Grids.PsyOutlines | components/charts.py:1356-1370 | The outlines succeed iff every band's fit succeeds. Outline b is the outline of band b's pair of rows, with 100 vertices. A failure is the error of some band's outline, and it is the first failed fit when every lower row is fitted before any upper row |
| Grids.PsyPolygons | components/charts.py:1198-1370 | A failed bisection fails the chart with its error. With a successful table, the chart succeeds iff every band's outline does, outline b is band b's outline of the table, and a failure is some band's error, the first failed fit with lower rows fitted before upper rows |
| Grids.AdaptiveXValues | components/charts.py:85-88 | The x-axis ends are 50 and 92.3 in IP. In SI they are 10 and 30 for "iso" and 10 and 33.5 otherwise |
| Grids.AdaptiveCategories | components/charts.py:112-122 | EN has three categories, ASHRAE two |
| Grids.AdaptiveBand | components/charts.py:123-135 | A category's quadrilateral runs along the upper limit from x0 to x1, then back along the lower limit |
| Grids.AdaptivePolygons | components/charts.py:96-135 | There is one quadrilateral per category, with the adaptive function's upper and lower limits at the two x ends |
| HeatLoss.ClothingAreaFactor | components/charts.py:235-238 | fcl is 1 + 1.29 icl up to 0.078 and 1.05 + 0.645 icl above, so it is 1 for no clothing and never below 1 |
| HeatLoss.Prepare | components/charts.py:229-253 | The loop coefficients are non-negative for admissible inputs. With no clothing, fcl = 1 and the clothing terms vanish. mw = m - w, and still air gives hcf = 0 |
| HeatLoss.Update | components/charts.py:257-263 | One pass averages the bracket and uses the larger of the forced and natural convection coefficients |
| HeatLoss.ClothingSolution | components/charts.py:255-266 | The loop succeeds iff one of the states after 0..150 updates has abs(xn - xf) <= 0.00015, and returns the first such state |
| HeatLoss.CapOverridesLateConvergence | components/charts.py:264-266 | The loop raises even when the 151st update would meet the tolerance |
| HeatLoss.SolveClothingTemperature | components/charts.py:251-266 | The loop as written, with its counter, computes exactly `ClothingSolution` |
| HeatLoss.Ppd | components/charts.py:280-282 | PPD lies in [5, 100) and is 5 at PMV 0 |
| HeatLoss.PpdGrowsWithMagnitude | components/charts.py:280-282 | PPD depends on abs(PMV) only and grows strictly with it |
| HeatLoss.Decompose | components/charts.py:268-282 | hl2 is 0 unless mw > 58.15, and is then positive. PMV has the sign of mw minus the total loss |
| HeatLoss.HeatLossBreakdown | components/charts.py:228-293 | `pmv_pdd_6_heat_loss` fails exactly when the clothing loop raises. Its PPD is in [5, 100), and sweat is lost iff mw > 58.15 |
| HeatLoss.TotalMeetsMetabolicAtNeutral | components/charts.py:268-282 | The total loss equals the metabolic rate less the work exactly when PMV is 0, and falls below it exactly when PMV is positive. With no work, as the chart calls it, the unrounded h9 meets the unrounded h10 exactly at PMV 0 |
| HeatLoss.IntRange | components/charts.py:318 | `np.arange(first, first + count)` has count consecutive integers |
| HeatLoss.SeriesTemps | components/charts.py:317-351 | The axis has 31 temperatures 10..40 in SI and 55 temperatures 50..104 in IP |
| HeatLoss.RowAt | components/charts.py:319-349 | A row exists iff its call succeeds, and is that call's breakdown rounded |
| HeatLoss.GetHeatLosses | components/charts.py:317-379 | One row per axis temperature, in order (31 in SI, 55 in IP). The first failing call raises for the whole series |
| HeatLoss.SIAxisAdmissible | components/charts.py:350-355 | In SI every axis temperature gives admissible arguments |
| BodyTemperature.TdbAxis | components/charts.py:708 | The SET chart's axis is 10, 15, ..., 40: 7 values |
| BodyTemperature.ConvectionOf | components/charts.py:804-814 | h_cc is the largest of the still-air, forced and (when met > 0.85 and the cooling effect is not being computed) metabolic coefficients |
| BodyTemperature.CarryFor | components/charts.py:815-818 | r_a is positive and t_op lies between the air and radiant temperatures |
| BodyTemperature.Relax | components/charts.py:826-843 | One inner pass maps temperatures between the air, radiant and skin temperatures into the same range, so no division by zero occurs |
| BodyTemperature.InnerSolve | components/charts.py:820-850 | The inner loop succeeds iff one of passes 1..150 moves the clothing temperature by at most 0.01. Otherwise it raises |
| BodyTemperature.InnerCapOverridesLateConvergence | components/charts.py:847-850 | The inner loop raises even when pass 151 would meet the tolerance |
| BodyTemperature.SolveClothing | components/charts.py:820-850 | The inner loop as written, a do-while on the converged flag with the cap checked after each pass, computes exactly `InnerSolve` |
| BodyTemperature.OuterNeedsFirstStep | components/charts.py:820-854 | The simulation succeeds only if the first step's inner loop does |
| BodyTemperature.FinalClothing | components/charts.py:820-856 | The final clothing temperature lies between the air, radiant and skin temperatures |
| BodyTemperature.Simulate | components/charts.py:802-854 | After 60 steps the mean body temperature is a t_skin + (1 - a) t_core, with a = 0.0417737 + 0.7451833/(m_bl + 0.585417): only the first step used 0.1. Any inner loop that raises aborts the simulation |
| BodyTemperature.SetRowAt | components/charts.py:744-862 | A chart point exists iff the simulation succeeds, and otherwise carries the iteration error |
| BodyTemperature.SetRowMeaning | components/charts.py:770-862 | The temperatures are the simulated and two-node values shifted by the cooling effect, so their differences are kept. Skin evaporation is sweat plus diffusion, and wettedness is in percent |
| BodyTemperature.SetOutputsChart | components/charts.py:700-862 | One point per axis temperature, in order (7). An inner loop that raises aborts the chart |
| Results.AshraeCompliance | components/show_results.py:89-95 | The ASHRAE check passes iff abs(pmv) <= 0.5 |
| Results.EnCompliance | components/show_results.py:96-102 | The EN check passes iff abs(pmv) <= 0.7 |
| Results.AshraeImpliesEn | components/show_results.py:89-102 | ASHRAE compliance implies EN compliance |
| Results.CategoryTable | components/show_results.py:156-159 | The EN category table has the bounds 0.2 < 0.5 < 0.7, then infinity for IV |
| Results.CategorySymmetric | components/show_results.py:156-159 | PMVs of equal magnitude, such as a PMV and its negative, get the same EN category |
| Results.ColumnsSetting | components/show_results.py:25-29 | The PMV models use 3 columns and the others 2 |
| Results.MarkCompliance | components/show_results.py:177-194 | The comparison mark uses ±0.5 in Compare mode with the ASHRAE model, and ±0.7 otherwise |
| Results.ColumnOf | components/show_results.py:177-248 | A comparison column shows its input's ±0.5 mark, PMV and sensation |
| Results.SecondColumnAsWritten | components/show_results.py:335-371 | Column 2 as written shows input 2's mark and PMV, but input 1's sensation |
| Results.SecondColumnShowsFirstSensation | components/show_results.py:371 | For PMV -1 and 1, column 2 shows a sensation different from input 2's own |
| Results.ComparisonColumns | components/show_results.py:177-371 | As corrected, column 1 shows input 1's mark, PMV and sensation and column 2 shows input 2's. Equal inputs give equal columns |
| Results.PmvSummary | components/show_results.py:89-162 | A PMV model's summary complies by its own standard's band, has 2 grid columns for ASHRAE and 3 for EN, and carries the model's label |
| Results.DisplayResults | components/show_results.py:20-455 | As written, both adaptive models raise TypeError. Otherwise the panel is the comparison iff ASHRAE is in Compare mode, and there column 2 shows input 2's mark and PMV with input 1's sensation. It is hidden iff ASHRAE is not in Compare mode and the SET or heat-loss chart is selected. The summary's compliance, grid width and label follow the model |
| Results.AdaptivePanelRaises | components/show_results.py:425-441 | For either adaptive model the panel raises TypeError, whatever the chart and functionality |
| Results.IntendedDisplay | components/show_results.py:20-455 | As corrected, each comparison column shows its own input's sensation, and an adaptive model's panel is its model's hover text: 7 items for EN, 5 for ASHRAE |
| Results.IntendedMatchesWherePageWorks | components/show_results.py:20-455 | Wherever the page as written returns a panel, the corrected page returns the same one. The only exception is the second comparison column's sensation, which also agrees when both inputs have the same PMV |
| Results.LevelOf | components/show_results.py:508-514 | Exactly one level applies: COMFORTABLE iff low <= y <= up, TOO_WARM iff y > up, TOO_COOL otherwise |
| Results.AdaptiveRanges | components/show_results.py:471-493 | EN has three ranges headed by Class III, ASHRAE two headed by 80%. Any other model raises |
| Results.RangeItems | components/show_results.py:508-528 | Each range contributes its limits line, then its level line |
| Results.HoverText | components/show_results.py:495-528 | There are 1 + 2 x len(ranges) items: a headline that complies iff y lies in the first range (so it agrees with that range's level), then the limits and level lines of every range in order |
| Results.GainAdaptiveHoverText | components/show_results.py:465-530 | 7 items for EN and 5 for ASHRAE; any other model raises |
| HomePage.UnitsOfToggle | pages/home.py:120 | A checked toggle means IP, an unchecked one SI |
| HomePage.ToggleOfUnits | pages/home.py:217 | The restored toggle is checked iff the URL's units are "IP" |
| HomePage.ToggleRoundTrip | pages/home.py:120-217 | Toggle to units to toggle is the identity, and so is units to toggle to units for "SI" and "IP" |
| HomePage.UpdateInputs | pages/home.py:149-180 | No model gives no update. The wind chart omits mean radiant temperature and uses operative temperature. The SET and heat-loss charts omit air temperature. Every other chart includes both |
| HomePage.InputsMatchChart | pages/home.py:149-180 | Whenever a chart is drawn, its form omits air temperature exactly when the builder is the heat-loss or SET chart. It omits mean radiant temperature, asking for operative temperature, exactly when the builder is the air speed chart |
| HomePage.Get | pages/home.py:202-206 | `dict.get` returns the value iff the key is present |
| HomePage.UpdatePageFromUrl | pages/home.py:195-219 | The restore is a no-op iff the page is already initialised, the URL is None or no model is given. Otherwise it sets the flag and the toggle |
| HomePage.RestoresAtMostOnce | pages/home.py:195-219 | Over any sequence of URL events the restore takes effect at most once, and never once initialised |
| HomePage.CelsiusOfHover | pages/home.py:278-284 | An IP hover x is converted by (x - 32)/1.8, an SI one is kept |
| HomePage.HoverRoundTrip | pages/home.py:281-284 | The hover conversion inverts the charts' display conversion t x 1.8 + 32, both ways |
| HomePage.Clamp | pages/home.py:301 | `max(0, min(v, 100))` lies in [0, 100] and keeps values already inside |
| HomePage.RhOfHumidityRatio | pages/home.py:296-301 | The relative humidity derived from a humidity ratio lies in [0, 100] |
| HomePage.HoverRh | pages/home.py:291-303 | On the t-rh chart rh is the y-value. On the psychrometric chart it is converted and clamped to [0, 100]. No other chart gives one |
| HomePage.SetFirstAnnotation | pages/home.py:332-336 | Only the first annotation's text changes, and only when annotations exist |
| HomePage.UpdateHover | pages/home.py:264-340 | The figure is unchanged unless there is a first point with x and y, y > 0, and the t-rh or psychrometric chart |
| HomePage.HoverAnnotation | pages/home.py:278-336 | When it annotates, the text is built from the hovered x, its Celsius value and an rh that is y on the t-rh chart and in [0, 100] on the psychrometric chart |
| HomePage.ChartFor | pages/home.py:363-430 | Heat-loss, SET and wind charts render only for ASHRAE PMV in Default mode, and adaptive charts for Default mode. The t-rh chart renders for EN in Default mode and for ASHRAE unless in Ranges mode. The psychrometric chart renders for either PMV model in Default mode. Everything else gets the placeholder |
| HomePage.BuildersMatchModel | pages/home.py:363-430 | The model string handed to each builder selects the selected model's limits or categories |
| HomePage.UpdateChart | pages/home.py:349-434 | A builder that was called and raised aborts `update_chart` with its error, before the model lookup. Apart from that, `update_chart` raises KeyError exactly when the model name is not a member of `Models`. Otherwise it returns the builder of the dispatch |

## Left out

- Plotting, figure layout, colours other than the band colour list,
  annotation text, Dash callback wiring and page components are
  presentation only.
- Foreign functions are parameters and are not modelled:
  - pythermalcomfort's `pmv`, `pmv_ppd`, `set_tmp`, `two_nodes`,
    `cooling_effect`, `adaptive_en`/`adaptive_ashrae`, `psy_ta_rh`, `p_sat`,
    `t_o`, `v_relative`, `clo_dynamic`, `units_converter` and `mapping`;
  - scipy's `brentq` and numpy's `polyfit`;
  - the UnitConverter helpers.

  Only their outcomes enter the model. No binning rule of `mapping` is
  assumed.
- IEEE floating point: the model works over exact reals. `round` is an
  abstract function. `exp`, `sqrt`, `x ** 0.25` and `pow` are abstract, with
  only the facts in `Numerics.Sound` assumed: exp is positive and
  increasing with exp(0) = 1, roots are non-negative, and powers of a
  positive base are positive.
- Convergence of the fixed-point loops is not claimed. Only the caps, the
  invariants and the algebraic identities are proved.
- HeatLoss.HeatLossBreakdown: requires admissible arguments (clothing and
  speed non-negative, air above -235 degC). The source divides by
  ta + 235, and takes the square root of the speed, without checking.
- BodyTemperature.SetOutputsChart: requires every two-node temperature to be
  above absolute zero, and m_bl + 0.585417 to be non-zero. Through
  `InputsOk` (shared with `ConvectionOf` and `SetRowAt`) it also requires
  `clo >= 0`, the bound admitted for HeatLoss, and `pAtm > 0`. The only
  call (home.py:401) keeps the default `p_atmospheric` of 101325
  (charts.py:703). It models the SI axis
  only: the IP conversion of the inputs and axis (lines 741-742 and
  864-870) is foreign.
- HomePage.UpdateHover: requires `p_sat` to be positive everywhere.
- HomePage.UpdateHover: the y <= 0 branch reads `last_valid_annotation`,
  which is only ever `None`. That branch therefore returns the figure
  unchanged, and the global is not modelled.
- Results.DisplayResults: the PMV, PPD and SET values and their formatting
  are not modelled. Only compliance, labels and layout are.
- HomePage.ChartFor: `update_chart` shows the placeholder when the
  builder's figure has no data. A called builder is taken to return a
  non-empty figure. The chart notes are not modelled.
- HomePage.UpdateChart: whether a model name is a member of `Models` is a
  parameter, and so is the called builder's outcome (`built`). The enumeration is defined in `utils/my_config_file.py`, which
  is not part of this model.
- `update_store_inputs` is modelled only for its unit toggle mapping
  (`HomePage.UnitsOfToggle`). The input parsing and the argument order of
  that callback are not modelled.
- The unused unit-conversion block at the start of `speed_temp_pmv` (lines
  1569-1574) has no effect on the chart data and is not modelled.
- Grids.SpeedPoints: `brentq` is called with the chart's own inputs, which
  enter through the `solve` parameter.
- Grids.TRhCompareBand: the second input's values, read by
  `compare_get_inputs`, enter only through the `solve2` parameter. The
  second input's marker is presentation only.
- `chart_selector`, `get_inputs`, `compare_get_inputs`, `app.py` and the
  drop-down component are not part of this model.
- `BodyTemperature.OuterRun`'s decomposition into first step and remainder
  is stated only as `BodyTemperature.OuterNeedsFirstStep`.
- A psychrometric band outline has 2 x 50 vertices. A failed
  `pmv_pdd_6_heat_loss` call, or a failed inner loop of the SET chart,
  aborts the whole series.

## Findings

| source | as written | input that shows it | evidently intended | confidence | as-written member | corrected member |
|---|---|---|---|---|---|---|
| components/show_results.py:371 | In Compare mode, the second input's column shows `comfort_category`. That is the sensation computed from the first input's PMV at lines 140-155. `Results.SecondColumnShowsFirstSensation` proves the mismatch. | First input PMV -1, second input PMV 1, with any `mapping` that gives them different sensations | Column 2 shows the sensation of the second input's PMV, as column 1 does for the first | medium; not executed | Results.SecondColumnAsWritten | Results.ComparisonColumns |
| components/show_results.py:425-441 | Both adaptive branches call `gain_adaptive_hover_text` without its `model` parameter, which has no default (lines 465-466). The call raises TypeError, so the adaptive panel is never shown. `Results.AdaptivePanelRaises` states it. | Selected model Adaptive_EN or Adaptive_ASHRAE, any inputs | The panel lists the selected model's comfort ranges from `gain_adaptive_hover_text(..., model=...)` | high; not executed | Results.DisplayResults | Results.IntendedDisplay |
