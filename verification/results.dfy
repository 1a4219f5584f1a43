/** The results panel: compliance with the PMV limits of ASHRAE 55 and
    EN 16798, the sensation or category label, the layout of the panel for
    each model and functionality, and the adaptive-comfort summary.

    The index values (`pmv_ppd`, `t_o`, `adaptive_en`/`adaptive_ashrae`) and
    `mapping`, the library's lookup of a value in a table of upper bounds,
    are foreign and enter as parameters. */
module Results {
  import opened Common
  import opened Selections

  // ---------------------------------------------------------------------
  // Compliance and category

  /** The ASHRAE 55 check, `-0.5 <= pmv <= 0.5`. */
  function AshraeCompliance(pmv: real): (ok: bool)
    ensures ok <==> Abs(pmv) <= 0.5
  {
    -0.5 <= pmv <= 0.5
  }

  /** The EN 16798 check, `-0.7 <= pmv <= 0.7`. */
  function EnCompliance(pmv: real): (ok: bool)
    ensures ok <==> Abs(pmv) <= 0.7
  {
    -0.7 <= pmv <= 0.7
  }

  /** The ASHRAE band lies inside the EN band: an input that complies with
      ASHRAE 55 complies with EN 16798, and one outside the EN band fails
      both. */
  lemma AshraeImpliesEn(pmv: real)
    ensures AshraeCompliance(pmv) ==> EnCompliance(pmv)
    ensures !EnCompliance(pmv) ==> !AshraeCompliance(pmv)
  {
  }

  /** An upper bound of a lookup table: a number or `float("inf")`. */
  datatype Bound = Finite(value: real) | Infinity

  /** The table the ASHRAE sensation is read from. */
  function SensationTable(): seq<(Bound, string)> {
    [(Finite(-2.5), "Cold"), (Finite(-1.5), "Cool"), (Finite(-0.5), "Slightly Cool"),
     (Finite(0.5), "Neutral"), (Finite(1.5), "Slightly Warm"), (Finite(2.5), "Warm"),
     (Finite(10.0), "Hot")]
  }

  /** The EN category table: the category bounds 0.2, 0.5 and 0.7 of
      ISO 7730 Annex A Table A.1, then everything else. */
  function CategoryTable(): (t: seq<(Bound, string)>)
    ensures |t| == 4 && t[3] == (Infinity, "IV")
    ensures forall i :: 0 <= i < 3 ==> t[i].0.Finite?
    ensures t[0].0.value < t[1].0.value < t[2].0.value
  {
    [(Finite(0.2), "I"), (Finite(0.5), "II"), (Finite(0.7), "III"), (Infinity, "IV")]
  }

  /** The label shown under the PMV: the ASHRAE sensation of the PMV, or the
      EN category of its magnitude. */
  function Label(model: Model, mapping: (real, seq<(Bound, string)>) -> string, pmv: real): (s: string)
    ensures model == PmvEn ==> s == mapping(Abs(pmv), CategoryTable())
    ensures model != PmvEn ==> s == mapping(pmv, SensationTable())
  {
    if model == PmvEn then mapping(Abs(pmv), CategoryTable()) else mapping(pmv, SensationTable())
  }

  /** The EN category depends on the magnitude only: two PMVs of equal
      magnitude, in particular a PMV and its negative, fall in the same
      category. */
  lemma CategorySymmetric(mapping: (real, seq<(Bound, string)>) -> string, pmv: real, other: real)
    ensures Abs(other) == Abs(pmv) ==> Label(PmvEn, mapping, other) == Label(PmvEn, mapping, pmv)
    ensures Label(PmvEn, mapping, -pmv) == Label(PmvEn, mapping, pmv)
  {
    assert Abs(-pmv) == Abs(pmv);
  }

  // ---------------------------------------------------------------------
  // The panel

  /** The `columns` setting: three for the PMV models, two otherwise. */
  function ColumnsSetting(model: Model): (n: nat)
    ensures n == 3 <==> IsPmv(model)
    ensures n == 2 <==> !IsPmv(model)
  {
    if model == PmvEn || model == PmvAshrae then 3 else 2
  }

  /** The rule of the compliance mark in the comparison columns: the ASHRAE
      band in Compare mode with the ASHRAE model, the EN band otherwise. */
  function MarkCompliance(f: Functionality, model: Model, pmv: real): (ok: bool)
    ensures f == Compare && model == PmvAshrae ==> (ok <==> Abs(pmv) <= 0.5)
    ensures !(f == Compare && model == PmvAshrae) ==> (ok <==> Abs(pmv) <= 0.7)
  {
    if f == Compare && model == PmvAshrae then AshraeCompliance(pmv) else EnCompliance(pmv)
  }

  /** One column of the side-by-side comparison. */
  datatype Column = Column(compliant: bool, pmv: real, sensation: string)

  /** The column of one input: its ±0.5 mark, its PMV and its sensation. */
  function ColumnOf(mapping: (real, seq<(Bound, string)>) -> string, pmv: real): (c: Column)
    ensures c.pmv == pmv
    ensures c.compliant <==> Abs(pmv) <= 0.5
    ensures c.sensation == mapping(pmv, SensationTable())
  {
    Column(MarkCompliance(Compare, PmvAshrae, pmv), pmv, Label(PmvAshrae, mapping, pmv))
  }

  /** The second input's column as the page builds it: its mark and PMV
      are the second input's, but the sensation shown is the first
      input's, computed before the second input is evaluated. */
  function SecondColumnAsWritten(mapping: (real, seq<(Bound, string)>) -> string, pmv1: real, pmv2: real): (c: Column)
    ensures c.pmv == pmv2
    ensures c.compliant <==> Abs(pmv2) <= 0.5
    ensures c.sensation == ColumnOf(mapping, pmv1).sensation
  {
    Column(MarkCompliance(Compare, PmvAshrae, pmv2), pmv2, Label(PmvAshrae, mapping, pmv1))
  }

  /** Two inputs with different sensations: the second column shows the
      sensation of the first input, not its own. */
  lemma SecondColumnShowsFirstSensation()
    ensures var mapping := (x: real, t: seq<(Bound, string)>) => if x < 0.0 then "Cool" else "Warm";
      SecondColumnAsWritten(mapping, -1.0, 1.0).sensation != mapping(1.0, SensationTable())
  {
    var mapping := (x: real, t: seq<(Bound, string)>) => if x < 0.0 then "Cool" else "Warm";
    assert SecondColumnAsWritten(mapping, -1.0, 1.0).sensation == "Cool";
  }

  /** The two columns of the comparison, corrected so that each is built
      from its own input by the same rule. */
  function ComparisonColumns(mapping: (real, seq<(Bound, string)>) -> string, pmv1: real, pmv2: real): (r: (Column, Column))
    ensures r.0.pmv == pmv1 && r.1.pmv == pmv2
    ensures (r.0.compliant <==> Abs(pmv1) <= 0.5) && (r.1.compliant <==> Abs(pmv2) <= 0.5)
    ensures r.0.sensation == mapping(pmv1, SensationTable()) && r.1.sensation == mapping(pmv2, SensationTable())
    ensures pmv1 == pmv2 ==> r.0 == r.1
  {
    (ColumnOf(mapping, pmv1), ColumnOf(mapping, pmv2))
  }

  /** What `display_results` returns. */
  datatype Display =
    | Hidden                                         // `None`
    | Comparison(first: Column, second: Column)      // the side-by-side grid
    | Summary(compliant: bool, gridColumns: nat, caption: string)  // a PMV model's panel
    | AdaptiveSummary(items: seq<HoverItem>)         // the adaptive models' panel
    | EmptyPanel                                     // any other model: an empty stack

  /** The panel of a PMV model outside Compare mode. */
  function PmvSummary(model: Model, mapping: (real, seq<(Bound, string)>) -> string, pmv1: real): (d: Display)
    requires IsPmv(model)
    ensures d.Summary?
    ensures d.compliant == (if model == PmvAshrae then Abs(pmv1) <= 0.5 else Abs(pmv1) <= 0.7)
    ensures d.gridColumns == (if model == PmvAshrae then 2 else 3)
    ensures d.caption == Label(model, mapping, pmv1)
  {
    var compliant := if model == PmvAshrae then AshraeCompliance(pmv1) else EnCompliance(pmv1);
    Summary(compliant, if model == PmvAshrae then 2 else ColumnsSetting(model), Label(model, mapping, pmv1))
  }

  /** `display_results` as written, for a model, chart and functionality;
      `pmv1` and `pmv2` are the PMV of the two inputs. In Compare mode the
      second column shows the first input's sensation, and both adaptive
      branches call `gain_adaptive_hover_text` without its `model`
      argument, which raises. */
  function DisplayResults(model: Model, chart: Chart, f: Functionality,
                          mapping: (real, seq<(Bound, string)>) -> string, pmv1: real, pmv2: real): (r: Result<Display>)
    ensures r.Failure? <==> model == AdaptiveEn || model == AdaptiveAshrae
    ensures r.Failure? ==> r.error == MissingArgument
    ensures r.Success? ==> !r.value.AdaptiveSummary?
    ensures r.Success? ==> (r.value.Comparison? <==> model == PmvAshrae && f == Compare)
    ensures r.Success? ==>
      (r.value.Hidden? <==> model == PmvAshrae && f != Compare && (chart == SetOutputs || chart == ThlPsychrometric))
    ensures r.Success? ==> (r.value.Summary? <==> IsPmv(model) && !r.value.Comparison? && !r.value.Hidden?)
    ensures r.Success? && r.value.Comparison? ==>
      && r.value.first.compliant == AshraeCompliance(pmv1) && r.value.second.compliant == AshraeCompliance(pmv2)
      && r.value.first.pmv == pmv1 && r.value.second.pmv == pmv2
      && r.value.first.sensation == mapping(pmv1, SensationTable())
      && r.value.second.sensation == mapping(pmv1, SensationTable())
    ensures r.Success? && r.value.Summary? ==>
      && r.value.compliant == (if model == PmvAshrae then AshraeCompliance(pmv1) else EnCompliance(pmv1))
      && r.value.gridColumns == (if model == PmvEn then ColumnsSetting(model) else 2)
      && r.value.caption == Label(model, mapping, pmv1)
  {
    if IsPmv(model) then
      if f == Compare && model == PmvAshrae then
        Success(Comparison(ColumnOf(mapping, pmv1), SecondColumnAsWritten(mapping, pmv1, pmv2)))
      else if model == PmvAshrae && (chart == SetOutputs || chart == ThlPsychrometric) then
        Success(Hidden)
      else
        Success(PmvSummary(model, mapping, pmv1))
    else if model == AdaptiveEn || model == AdaptiveAshrae then Failure(MissingArgument)
    else Success(EmptyPanel)
  }

  /** `display_results` as evidently intended: each comparison column shows
      its own input's sensation, and the adaptive branches pass the model to
      `gain_adaptive_hover_text`. `y` is the operative temperature and
      `result` the adaptive model's output. */
  function IntendedDisplay(model: Model, chart: Chart, f: Functionality,
                           mapping: (real, seq<(Bound, string)>) -> string, pmv1: real, pmv2: real,
                           y: real, result: string -> real): (d: Display)
    ensures d.Comparison? ==>
      d.first.sensation == mapping(pmv1, SensationTable()) && d.second.sensation == mapping(pmv2, SensationTable())
    ensures d.AdaptiveSummary? <==> model == AdaptiveEn || model == AdaptiveAshrae
    ensures model == AdaptiveEn ==> d.AdaptiveSummary? && |d.items| == 7
    ensures model == AdaptiveAshrae ==> d.AdaptiveSummary? && |d.items| == 5
    ensures d.AdaptiveSummary? ==> Success(d.items) == GainAdaptiveHoverText(model, y, result)
  {
    if IsPmv(model) then
      if f == Compare && model == PmvAshrae then
        var columns := ComparisonColumns(mapping, pmv1, pmv2);
        Comparison(columns.0, columns.1)
      else if model == PmvAshrae && (chart == SetOutputs || chart == ThlPsychrometric) then
        Hidden
      else
        PmvSummary(model, mapping, pmv1)
    else match GainAdaptiveHoverText(model, y, result)
      case Success(items) => AdaptiveSummary(items)
      case Failure(_) => EmptyPanel
  }

  /** The two versions differ only where the source goes wrong: wherever
      the page as written returns a panel, the intended page returns the
      same one, except for the second column's sensation in Compare mode. */
  lemma IntendedMatchesWherePageWorks(model: Model, chart: Chart, f: Functionality,
                                      mapping: (real, seq<(Bound, string)>) -> string, pmv1: real, pmv2: real,
                                      y: real, result: string -> real)
    ensures var written := DisplayResults(model, chart, f, mapping, pmv1, pmv2);
            var intended := IntendedDisplay(model, chart, f, mapping, pmv1, pmv2, y, result);
      && (written.Success? && !written.value.Comparison? ==> intended == written.value)
      && (written.Success? && written.value.Comparison? ==>
            && intended.Comparison? && intended.first == written.value.first
            && intended.second.pmv == written.value.second.pmv
            && intended.second.compliant == written.value.second.compliant)
      && (pmv1 == pmv2 ==> written.Success? && written.value.Comparison? ==> intended == written.value)
  {
  }

  /** The adaptive branches of the page as written raise for both adaptive
      models, whatever the chart and functionality. */
  lemma AdaptivePanelRaises(chart: Chart, f: Functionality, mapping: (real, seq<(Bound, string)>) -> string,
                            pmv1: real, pmv2: real)
    ensures DisplayResults(AdaptiveEn, chart, f, mapping, pmv1, pmv2) == Failure(MissingArgument)
    ensures DisplayResults(AdaptiveAshrae, chart, f, mapping, pmv1, pmv2) == Failure(MissingArgument)
  {
  }

  // ---------------------------------------------------------------------
  // Adaptive comfort (`ComfortRange`, `gain_adaptive_hover_text`)

  /** An acceptability range of operative temperature. */
  datatype ComfortRange = ComfortRange(low: real, up: real, name: string)

  datatype ComfortLevel = Comfortable | TooWarm | TooCool

  /** Where the operative temperature `y` lies relative to a range. */
  function LevelOf(range: ComfortRange, y: real): (l: ComfortLevel)
    ensures l == Comfortable <==> range.low <= y <= range.up
    ensures l == TooWarm <==> y > range.up
    ensures l == TooCool <==> y < range.low && y <= range.up
  {
    if range.low <= y <= range.up then Comfortable
    else if y > range.up then TooWarm
    else TooCool
  }

  /** The ranges of an adaptive model, read from the result of its adaptive
      function (`result(key)`), widest first; other models are refused. */
  function AdaptiveRanges(model: Model, result: string -> real): (r: Result<seq<ComfortRange>>)
    ensures r.Failure? <==> model != AdaptiveEn && model != AdaptiveAshrae
    ensures r.Failure? ==> r.error == UnsupportedModel
    ensures model == AdaptiveEn ==> r.Success? && |r.value| == 3 && r.value[0].name == "Class III"
    ensures model == AdaptiveAshrae ==> r.Success? && |r.value| == 2 && r.value[0].name == "80%"
  {
    if model == AdaptiveEn then
      Success([ComfortRange(result("tmp_cmf_cat_iii_low"), result("tmp_cmf_cat_iii_up"), "Class III"),
               ComfortRange(result("tmp_cmf_cat_ii_low"), result("tmp_cmf_cat_ii_up"), "Class II"),
               ComfortRange(result("tmp_cmf_cat_i_low"), result("tmp_cmf_cat_i_up"), "Class I")])
    else if model == AdaptiveAshrae then
      Success([ComfortRange(result("tmp_cmf_80_low"), result("tmp_cmf_80_up"), "80%"),
               ComfortRange(result("tmp_cmf_90_low"), result("tmp_cmf_90_up"), "90%")])
    else Failure(UnsupportedModel)
  }

  /** One line of the adaptive summary. */
  datatype HoverItem =
    | Verdict(compliant: bool, standard: string)   // the headline
    | Limits(range: ComfortRange)                  // a range's limits
    | Level(level: ComfortLevel)                   // where `y` lies in it

  /** Two lines per range: its limits, then the level of `y`. */
  function RangeItems(ranges: seq<ComfortRange>, y: real): (r: seq<HoverItem>)
    ensures |r| == 2 * |ranges|
    ensures forall k :: 0 <= k < |ranges| ==>
      r[2 * k] == Limits(ranges[k]) && r[2 * k + 1] == Level(LevelOf(ranges[k], y))
  {
    seq(2 * |ranges|, i requires 0 <= i < 2 * |ranges| =>
      if i % 2 == 0 then Limits(ranges[i / 2]) else Level(LevelOf(ranges[i / 2], y)))
  }

  /** The name of the standard in the headline. */
  function StandardName(model: Model): string {
    if model == AdaptiveEn then "EN 16798" else "ASHRAE 55"
  }

  /** The summary of a list of ranges: a headline saying whether `y` lies
      in the first range, then the two lines of each range in order. */
  function HoverText(ranges: seq<ComfortRange>, y: real, standard: string): (r: seq<HoverItem>)
    requires |ranges| > 0
    ensures |r| == 1 + 2 * |ranges|
    ensures r[0] == Verdict(LevelOf(ranges[0], y) == Comfortable, standard)
    ensures r[1..] == RangeItems(ranges, y)
  {
    var main := ranges[0];
    [Verdict(main.low <= y <= main.up, standard)] + RangeItems(ranges, y)
  }

  /** `gain_adaptive_hover_text`: the summary of the model's ranges, or the
      error for a model that is not adaptive. `y` is the operative
      temperature. */
  function GainAdaptiveHoverText(model: Model, y: real, result: string -> real): (r: Result<seq<HoverItem>>)
    ensures r.Failure? <==> model != AdaptiveEn && model != AdaptiveAshrae
    ensures r.Failure? ==> r.error == UnsupportedModel
    ensures r.Success? ==> r.value == HoverText(AdaptiveRanges(model, result).value, y, StandardName(model))
    ensures model == AdaptiveEn ==> r.Success? && |r.value| == 7
    ensures model == AdaptiveAshrae ==> r.Success? && |r.value| == 5
  {
    match AdaptiveRanges(model, result)
    case Failure(err) => Failure(err)
    case Success(ranges) => Success(HoverText(ranges, y, StandardName(model)))
  }
}
