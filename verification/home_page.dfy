/** The page callbacks: which chart builder `update_chart` calls, which
    input fields `update_inputs` asks for, the run-once URL restore of
    `update_page_from_url`, the unit toggle, and the numeric part of the
    hover annotation.

    Query-string parsing, `p_sat` and the annotation text (built from
    `psy_ta_rh`) are foreign and enter as parameters. */
module HomePage {
  import opened Common
  import opened Selections
  import Grids

  // ---------------------------------------------------------------------
  // The unit toggle

  /** The unit system of the toggle: checked is IP. */
  function UnitsOfToggle(checked: bool): (u: Units)
    ensures u == IP <==> checked
  {
    if checked then IP else SI
  }

  /** The toggle state restored from a stored unit name: checked iff the
      name is "IP". */
  function ToggleOfUnits(units: Option<string>): (checked: bool)
    ensures checked <==> units == Some("IP")
  {
    units.Some? && units.value == "IP"
  }

  /** Restoring the stored name of the toggle's unit system gives the
      toggle back, and storing the unit system of a restored toggle gives
      the name back when it is one of the two names. */
  lemma ToggleRoundTrip(checked: bool, name: string)
    ensures ToggleOfUnits(Some(UnitsName(UnitsOfToggle(checked)))) == checked
    ensures name == "SI" || name == "IP" ==> UnitsName(UnitsOfToggle(ToggleOfUnits(Some(name)))) == name
  {
  }

  // ---------------------------------------------------------------------
  // `update_inputs`

  /** The keyword arguments passed to the input-form builder; `None` leaves
      a keyword at the builder's own default. */
  datatype FieldRequest = FieldRequest(
    units: Units,
    includeTr: bool,               // mean radiant temperature
    includeAirTemp: Option<bool>,  // air temperature
    operative: Option<bool>)       // operative instead of air temperature

  /** The form requested for a model, toggle state and chart; no model
      selected gives no update. */
  function UpdateInputs(model: Option<Model>, checked: bool, chart: Chart): (r: Option<FieldRequest>)
    ensures r.None? <==> model.None?
    ensures r.Some? ==> r.value.units == UnitsOfToggle(checked)
    ensures r.Some? ==> (!r.value.includeTr <==> chart == WindTemp)
    ensures r.Some? ==> (r.value.operative == Some(true) <==> chart == WindTemp)
    ensures r.Some? ==> (r.value.includeAirTemp == Some(false) <==> chart == SetOutputs || chart == ThlPsychrometric)
    ensures r.Some? && chart != WindTemp && chart != SetOutputs && chart != ThlPsychrometric ==>
      r.value.includeTr && r.value.includeAirTemp == Some(true) && r.value.operative == Some(false)
  {
    if model.None? then None
    else
      var units := UnitsOfToggle(checked);
      if chart == WindTemp then Some(FieldRequest(units, false, None, Some(true)))
      else if chart == SetOutputs || chart == ThlPsychrometric then Some(FieldRequest(units, true, Some(false), None))
      else Some(FieldRequest(units, true, Some(true), Some(false)))
  }

  // ---------------------------------------------------------------------
  // `update_page_from_url`

  /** The query-string keys the restore reads. */
  datatype Key = ModelKey | UnitsKey | FunctionalityKey | ChartKey

  /** The values written back to the page by a restore. */
  datatype PageUpdate = PageUpdate(
    model: string,
    chart: Option<string>,
    functionality: Option<string>,
    unitsChecked: bool,
    initialized: bool)

  /** `dict.get`. */
  function Get(params: map<Key, string>, k: Key): (r: Option<string>)
    ensures r.Some? <==> k in params
    ensures r.Some? ==> r.value == params[k]
  {
    if k in params then Some(params[k]) else None
  }

  /** The restore for the stored flag, the URL search string (`None` before
      the location is known) and the query-string parser; `None` is
      `no_update` on every output. */
  function UpdatePageFromUrl(initialized: bool, url: Option<string>, parse: string -> map<Key, string>): (r: Option<PageUpdate>)
    ensures r.None? <==> initialized || url.None? || ModelKey !in parse(url.value)
    ensures r.Some? ==> r.value.initialized
    ensures r.Some? ==> r.value.model == parse(url.value)[ModelKey]
    ensures r.Some? ==> (r.value.unitsChecked <==> Get(parse(url.value), UnitsKey) == Some("IP"))
  {
    if initialized || url.None? then None
    else
      var params := parse(url.value);
      match Get(params, ModelKey)
      case None => None
      case Some(model) =>
        Some(PageUpdate(model, Get(params, ChartKey), Get(params, FunctionalityKey),
                        ToggleOfUnits(Get(params, UnitsKey)), true))
  }

  /** The stored flag after one call: set by a restore, kept otherwise. */
  function FlagAfter(initialized: bool, url: Option<string>, parse: string -> map<Key, string>): bool {
    match UpdatePageFromUrl(initialized, url, parse)
    case None => initialized
    case Some(u) => u.initialized
  }

  /** The number of restores a sequence of URL events performs. */
  function Restores(initialized: bool, urls: seq<Option<string>>, parse: string -> map<Key, string>): nat
    decreases |urls|
  {
    if |urls| == 0 then 0
    else
      (if UpdatePageFromUrl(initialized, urls[0], parse).Some? then 1 else 0)
      + Restores(FlagAfter(initialized, urls[0], parse), urls[1..], parse)
  }

  /** The restore takes effect at most once, and never once the flag is
      set. */
  lemma {:induction false} RestoresAtMostOnce(initialized: bool, urls: seq<Option<string>>, parse: string -> map<Key, string>)
    ensures Restores(initialized, urls, parse) <= 1
    ensures initialized ==> Restores(initialized, urls, parse) == 0
    decreases |urls|
  {
    if |urls| > 0 {
      var next := FlagAfter(initialized, urls[0], parse);
      RestoresAtMostOnce(next, urls[1..], parse);
      if UpdatePageFromUrl(initialized, urls[0], parse).Some? {
        assert next;
      } else {
        assert next == initialized;
      }
    }
  }

  // ---------------------------------------------------------------------
  // `update_hover_annotation`

  /** The first hovered point; a coordinate is `None` when the point has no
      such key. */
  datatype HoverPoint = HoverPoint(x: Option<real>, y: Option<real>)

  /** The part of the figure the handler touches: the layout's annotation
      texts, `None` when the layout has no annotations. */
  datatype Figure = Figure(annotations: Option<seq<string>>)

  /** The displayed temperature as Celsius: IP values are Fahrenheit. */
  function CelsiusOfHover(units: Units, x: real): (t: real)
    ensures units == SI ==> t == x
    ensures units == IP ==> t * 1.8 + 32.0 == x
  {
    if units == IP then (x - 32.0) / 1.8 else x
  }

  /** The Fahrenheit value the charts display for a Celsius temperature. */
  function FahrenheitOf(t: real): real {
    t * 1.8 + 32.0
  }

  /** Converting a displayed IP temperature back undoes the display
      conversion, and the other way round. */
  lemma HoverRoundTrip(t: real, x: real)
    ensures CelsiusOfHover(IP, FahrenheitOf(t)) == t
    ensures FahrenheitOf(CelsiusOfHover(IP, x)) == x
  {
  }

  /** `max(0, min(v, 100))`. */
  function Clamp(v: real): (r: real)
    ensures 0.0 <= r <= 100.0
    ensures 0.0 <= v <= 100.0 ==> r == v
    ensures v > 100.0 ==> r == 100.0
    ensures v < 0.0 ==> r == 0.0
  {
    if v < 0.0 then 0.0 else if v > 100.0 then 100.0 else v
  }

  /** Relative humidity of humidity ratio `hr` (g/kg) at standard pressure,
      given the saturation pressure `ps`, clamped to [0, 100]. */
  function RhOfHumidityRatio(hr: real, ps: real): (rh: real)
    requires hr >= 0.0 && ps > 0.0
    ensures 0.0 <= rh <= 100.0
  {
    var vp := (hr * 101325.0) / 1000.0 / (0.62198 + hr / 1000.0);
    Clamp(vp / ps * 100.0)
  }

  /** The relative humidity read from a hovered y-value: the value itself
      on the t–rh chart, converted and clamped on the psychrometric chart,
      none on the other charts. */
  function HoverRh(chart: Chart, y: real, tdb: real, pSat: real -> real): (r: Option<real>)
    requires y > 0.0
    requires pSat(tdb) > 0.0
    ensures r.Some? <==> chart == TRh || chart == Psychrometric
    ensures chart == TRh ==> r == Some(y)
    ensures chart == Psychrometric ==> 0.0 <= r.value <= 100.0
  {
    if chart == TRh then Some(y)
    else if chart == Psychrometric then Some(RhOfHumidityRatio(y, pSat(tdb)))
    else None
  }

  /** Replace the first annotation's text, when there is one. */
  function SetFirstAnnotation(figure: Figure, text: string): (r: Figure)
    ensures r.annotations.Some? <==> figure.annotations.Some?
    ensures r.annotations.Some? ==> |r.annotations.value| == |figure.annotations.value|
    ensures r.annotations.Some? ==> forall i :: 1 <= i < |r.annotations.value| ==>
      r.annotations.value[i] == figure.annotations.value[i]
    ensures r.annotations.Some? && |r.annotations.value| > 0 ==> r.annotations.value[0] == text
    ensures figure.annotations.None? || |figure.annotations.value| == 0 ==> r == figure
  {
    match figure.annotations
    case None => figure
    case Some(texts) =>
      if |texts| == 0 then figure else Figure(Some([text] + texts[1..]))
  }

  /** The handler. `annotate(x, rh, tdb)` builds the annotation text from
      the displayed temperature, the relative humidity and the Celsius
      temperature. The restore branch for y <= 0 reads a cache that is
      never written, so it returns the figure unchanged. */
  function UpdateHover(points: seq<HoverPoint>, figure: Figure, units: Units, chart: Chart,
                       pSat: real -> real, annotate: (real, real, real) -> string): (r: Figure)
    requires forall t :: pSat(t) > 0.0
    ensures r.annotations.Some? <==> figure.annotations.Some?
    ensures r.annotations.Some? ==> |r.annotations.value| == |figure.annotations.value|
    ensures r != figure ==>
      && |points| > 0 && points[0].x.Some? && points[0].y.Some?
      && points[0].y.value > 0.0
      && (chart == TRh || chart == Psychrometric)
  {
    if |points| == 0 then figure
    else
      var p := points[0];
      if p.x.None? || p.y.None? then figure
      else
        var x, y := p.x.value, p.y.value;
        var tdb := CelsiusOfHover(units, x);
        if y <= 0.0 then figure
        else
          match HoverRh(chart, y, tdb, pSat)
          case None => figure
          case Some(rh) => SetFirstAnnotation(figure, annotate(x, rh, tdb))
  }

  /** When the handler annotates, the text is built from the hovered
      temperature, its Celsius value and a relative humidity that is the
      hovered y-value on the t–rh chart and lies in [0, 100] on the
      psychrometric chart. */
  lemma HoverAnnotation(points: seq<HoverPoint>, figure: Figure, units: Units, chart: Chart,
                        pSat: real -> real, annotate: (real, real, real) -> string)
    requires forall t :: pSat(t) > 0.0
    requires |points| > 0 && points[0].x.Some? && points[0].y.Some? && points[0].y.value > 0.0
    requires chart == TRh || chart == Psychrometric
    requires figure.annotations.Some? && |figure.annotations.value| > 0
    ensures var r := UpdateHover(points, figure, units, chart, pSat, annotate);
      var x := points[0].x.value;
      var tdb := CelsiusOfHover(units, x);
      && (chart == TRh ==> r.annotations.value[0] == annotate(x, points[0].y.value, tdb))
      && (chart == Psychrometric ==>
            exists rh :: 0.0 <= rh <= 100.0 && r.annotations.value[0] == annotate(x, rh, tdb))
  {
    var x, y := points[0].x.value, points[0].y.value;
    var tdb := CelsiusOfHover(units, x);
    var rh := HoverRh(chart, y, tdb, pSat).value;
    assert UpdateHover(points, figure, units, chart, pSat, annotate).annotations.value[0] == annotate(x, rh, tdb);
  }

  // ---------------------------------------------------------------------
  // `update_chart`

  /** The chart builder called, with the model string it is given, or the
      placeholder. */
  datatype Builder =
    | TRhBuilder(model: string)         // t_rh_pmv
    | HeatLossBuilder                   // get_heat_losses
    | SetBuilder                        // SET_outputs_chart
    | SpeedTempBuilder(model: string)   // speed_temp_pmv
    | AdaptiveBuilder(model: string)    // adaptive_chart
    | PsyBuilder(model: string)         // psy_pmv
    | Placeholder

  /** `update_chart`'s dispatch. */
  function ChartFor(chart: Chart, model: Model, f: Functionality): (b: Builder)
    ensures chart == ThlPsychrometric || chart == SetOutputs || chart == WindTemp ==>
      (b != Placeholder <==> model == PmvAshrae && f == Default)
    ensures chart == AdaptiveEnChart || chart == AdaptiveAshraeChart ==> (b != Placeholder <==> f == Default)
    ensures chart == TRh ==>
      (b != Placeholder <==> (model == PmvEn && f == Default) || (model == PmvAshrae && f != Ranges))
    ensures chart == Psychrometric ==> (b != Placeholder <==> IsPmv(model) && f == Default)
    ensures chart == OtherChart ==> b == Placeholder
  {
    match chart
    case TRh =>
      if model == PmvEn && f == Default then TRhBuilder("iso")
      else if model == PmvAshrae && f != Ranges then TRhBuilder("ashrae")
      else Placeholder
    case ThlPsychrometric => if model == PmvAshrae && f == Default then HeatLossBuilder else Placeholder
    case SetOutputs => if model == PmvAshrae && f == Default then SetBuilder else Placeholder
    case WindTemp => if model == PmvAshrae && f == Default then SpeedTempBuilder("ashrae") else Placeholder
    case AdaptiveEnChart => if f == Default then AdaptiveBuilder("iso") else Placeholder
    case AdaptiveAshraeChart => if f == Default then AdaptiveBuilder("ashrae") else Placeholder
    case Psychrometric =>
      if model == PmvAshrae && f == Default then PsyBuilder("ASHRAE")
      else if model == PmvEn && f == Default then PsyBuilder("ISO")
      else Placeholder
    case OtherChart => Placeholder
  }

  /** The model strings handed to the builders select the selected model's
      limits: the EN model gets the six EN/ISO limits and ASHRAE the ±0.5
      pair on the t–rh and psychrometric charts, and each adaptive chart
      draws its own standard's categories. */
  lemma BuildersMatchModel(chart: Chart, model: Model, f: Functionality)
    ensures ChartFor(chart, model, f).TRhBuilder? ==>
      (|Grids.TRhLimits(ChartFor(chart, model, f).model)| == 6 <==> model == PmvEn)
    ensures ChartFor(chart, model, f).PsyBuilder? ==>
      (|Grids.PsyTargets(ChartFor(chart, model, f).model)| == 6 <==> model == PmvEn)
    ensures ChartFor(chart, model, f).AdaptiveBuilder? ==>
      (|Grids.AdaptiveCategories(ChartFor(chart, model, f).model)| == 3 <==> chart == AdaptiveEnChart)
    ensures ChartFor(chart, model, f).SpeedTempBuilder? ==>
      Grids.TRhLimits(ChartFor(chart, model, f).model) == Grids.SpeedLimits()
  {
  }

  /** `update_chart`: the builder of the dispatch runs first, after which
      the model's entry in `Models` is read for the chart note. `built` is
      the called builder's outcome: `Some(e)` when it raised `e`, which
      aborts the callback before the lookup. `inModels` says whether the
      stored model name is a member of `Models` (the enumeration is not
      part of this model); a name that is not raises `KeyError`. */
  function UpdateChart(chart: Chart, model: Model, f: Functionality, built: Option<Error>, inModels: bool): (r: Result<Builder>)
    ensures ChartFor(chart, model, f) != Placeholder && built.Some? ==> r == Failure(built.value)
    ensures ChartFor(chart, model, f) == Placeholder || built.None? ==>
      && (r.Failure? <==> !inModels)
      && (r.Failure? ==> r.error == MissingKey)
    ensures r.Success? ==> r.value == ChartFor(chart, model, f) && inModels
  {
    var builder := ChartFor(chart, model, f);
    if builder != Placeholder && built.Some? then Failure(built.value)
    else if inModels then Success(builder)
    else Failure(MissingKey)
  }

  /** The input form matches the chart drawn: whenever a chart is drawn,
      the air temperature is left out of the form exactly for the heat-loss
      and SET charts, and the mean radiant temperature exactly for the
      air speed chart, whose form asks for the operative temperature. */
  lemma InputsMatchChart(model: Model, checked: bool, chart: Chart, f: Functionality)
    ensures var req, b := UpdateInputs(Some(model), checked, chart).value, ChartFor(chart, model, f);
      b != Placeholder ==>
        && (req.includeAirTemp == Some(false) <==> b == HeatLossBuilder || b == SetBuilder)
        && (!req.includeTr <==> b.SpeedTempBuilder?)
        && (req.operative == Some(true) <==> b.SpeedTempBuilder?)
        && (b.TRhBuilder? || b.PsyBuilder? || b.AdaptiveBuilder? ==>
              req.includeTr && req.includeAirTemp == Some(true) && req.operative == Some(false))
  {
  }
}
