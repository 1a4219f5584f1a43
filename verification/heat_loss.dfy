/** The heat-loss decomposition behind the ASHRAE heat-loss chart:
    `pmv_pdd_6_heat_loss` is the PMV program of ISO 7730 (Annex D) split
    into its six heat-loss channels, and `get_heat_losses` evaluates it once
    per dry-bulb temperature of the chart.

    `exp`, `sqrt`, `x ** 0.25` and `round` are abstract (module Numerics);
    fourth powers are exact. */
module HeatLoss {
  import opened Common
  import opened Numerics
  import opened FirstHit

  /** The arguments of one `pmv_pdd_6_heat_loss` call, in SI units. */
  datatype Inputs = Inputs(ta: real, tr: real, vel: real, rh: real, met: real, clo: real, wme: real)

  /** Inputs the chart can supply: clothing and air speed are non-negative
      (they come from `clo_dynamic` and `v_relative`) and the air is warmer
      than -235 degC, where the vapour-pressure formula has its pole. */
  predicate Admissible(i: Inputs) {
    i.clo >= 0.0 && i.vel >= 0.0 && i.ta > -235.0
  }

  /** Convergence tolerance of the clothing-temperature loop (hundreds of K). */
  const Eps: real := 0.00015
  /** The loop raises once its update count exceeds this. */
  const MaxUpdates: nat := 150

  /** Clothing area factor of ISO 7730: `1 + 1.29 icl` up to 0.078 m2K/W,
      `1.05 + 0.645 icl` above. */
  function ClothingAreaFactor(icl: real): (fcl: real)
    ensures icl <= 0.078 ==> fcl == 1.0 + 1.29 * icl
    ensures icl > 0.078 ==> fcl == 1.05 + 0.645 * icl
    ensures icl == 0.0 ==> fcl == 1.0
    ensures icl >= 0.0 ==> fcl >= 1.0
  {
    if icl <= 0.078 then 1.0 + 1.29 * icl else 1.05 + 0.645 * icl
  }

  /** The quantities fixed before the clothing-temperature loop starts. */
  datatype Setup = Setup(
    pa: real, icl: real, m: real, mw: real, fcl: real, hcf: real,
    taa: real, tra: real, tcla: real,
    p2: real, p3: real, p4: real, p5: real)

  /** Lines 229-253: vapour pressure, clothing, metabolic and forced-convection
      terms, and the coefficients of the balance equation. */
  function Prepare(n: Numerics, i: Inputs): (s: Setup)
    requires Sound(n) && Admissible(i)
    ensures s.icl >= 0.0 && s.fcl >= 1.0 && s.p3 >= 0.0 && s.hcf >= 0.0
    ensures i.clo == 0.0 ==> s.fcl == 1.0 && s.p2 == 0.0 && s.p3 == 0.0 && s.p4 == 0.0
    ensures s.mw == s.m - i.wme * 58.15
    ensures i.vel == 0.0 ==> s.hcf == 0.0
  {
    var pa := i.rh * 10.0 * n.exp(16.6536 - 4030.183 / (i.ta + 235.0));
    var icl := 0.155 * i.clo;
    var m := i.met * 58.15;
    var w := i.wme * 58.15;
    var mw := m - w;
    var fcl := ClothingAreaFactor(icl);
    var hcf := 12.1 * n.sqrt(i.vel);
    var taa := i.ta + 273.0;
    var tra := i.tr + 273.0;
    var tcla := taa + (35.5 - i.ta) / (3.5 * icl + 0.1);
    var p1 := icl * fcl;
    assert p1 >= 0.0;
    var p2 := p1 * 3.96;
    var p3 := p1 * 100.0;
    var p4 := p1 * taa;
    var p5 := 308.7 - 0.028 * mw + p2 * Pow4(tra / 100.0);
    Setup(pa, icl, m, mw, fcl, hcf, taa, tra, tcla, p2, p3, p4, p5)
  }

  predicate WellFormed(s: Setup) {
    s.p3 >= 0.0 && s.hcf >= 0.0
  }

  /** The loop state: bracket ends `xf`, `xn` (clothing temperature / 100 K)
      and the convection coefficient last used. */
  datatype Iterate = Iterate(xf: real, xn: real, hc: real)

  /** Before the first update: `xn = tcla / 100`, `xf = tcla / 50`, `hc = hcf`. */
  function Initial(s: Setup): Iterate {
    Iterate(s.tcla / 50.0, s.tcla / 100.0, s.hcf)
  }

  /** Natural-convection coefficient at clothing temperature `100 xf`. */
  function NaturalConvection(n: Numerics, s: Setup, xf: real): real {
    2.38 * n.root4(Abs(100.0 * xf - s.taa))
  }

  /** One pass of the loop body (lines 257-263): average the bracket, take the
      larger convection coefficient, solve the balance for the new `xn`. */
  function Update(n: Numerics, s: Setup, it: Iterate): (r: Iterate)
    requires Sound(n) && WellFormed(s)
    ensures r.xf == (it.xf + it.xn) / 2.0
    ensures r.hc >= s.hcf && r.hc >= NaturalConvection(n, s, r.xf)
    ensures r.hc == s.hcf || r.hc == NaturalConvection(n, s, r.xf)
    ensures s.hcf == 0.0 ==> r.hc == NaturalConvection(n, s, r.xf)
  {
    var xf := (it.xf + it.xn) / 2.0;
    var hcn := NaturalConvection(n, s, xf);
    var hc := if s.hcf > hcn then s.hcf else hcn;
    Iterate(xf, NextXn(s, xf, hc), hc)
  }

  /** The balance equation solved for the new clothing temperature (line 263). */
  function NextXn(s: Setup, xf: real, hc: real): real
    requires WellFormed(s) && hc >= 0.0
  {
    assert s.p3 * hc >= 0.0;
    (s.p5 + s.p4 * hc - s.p2 * Pow4(xf)) / (100.0 + s.p3 * hc)
  }

  /** The loop's exit test: `np.abs(xn - xf) > eps` no longer holds. */
  predicate Converged(it: Iterate) {
    Abs(it.xn - it.xf) <= Eps
  }

  /** The loop state after `k` updates, ignoring the cap. */
  function StateAfter(n: Numerics, s: Setup, k: nat): Iterate
    requires Sound(n) && WellFormed(s)
  {
    if k == 0 then Initial(s) else Update(n, s, StateAfter(n, s, k - 1))
  }

  /** The exit test as a function of the update count. */
  function Stops(n: Numerics, s: Setup): nat -> bool
    requires Sound(n) && WellFormed(s)
  {
    (k: nat) => StopsAt(n, s, k)
  }

  /** Whether the loop stops after `k` updates. */
  predicate StopsAt(n: Numerics, s: Setup, k: nat)
    requires Sound(n) && WellFormed(s)
  {
    Converged(StateAfter(n, s, k))
  }

  /** The clothing-temperature loop as a whole: it succeeds exactly when one
      of the states after 0..150 updates is converged, and returns the first
      such state with its update count. State 151 is computed but never
      accepted, since the cap check follows the update. */
  function ClothingSolution(n: Numerics, s: Setup): (r: Result<(Iterate, nat)>)
    requires Sound(n) && WellFormed(s)
    ensures r.Success? <==> exists j :: 0 <= j <= MaxUpdates && Stops(n, s)(j)
    ensures r.Success? ==>
      && r.value.1 <= MaxUpdates
      && r.value.0 == StateAfter(n, s, r.value.1)
      && Converged(r.value.0)
      && forall j :: 0 <= j < r.value.1 ==> !Stops(n, s)(j)
    ensures r.Failure? ==> r.error == MaxIterationsExceeded
  {
    match FirstFrom(Stops(n, s), 0, MaxUpdates)
    case None => Failure(MaxIterationsExceeded)
    case Some(k) => Success((StateAfter(n, s, k), k))
  }

  /** Even when the 151st update would meet the tolerance, the loop raises. */
  lemma CapOverridesLateConvergence(n: Numerics, s: Setup)
    requires Sound(n) && WellFormed(s)
    requires forall j :: 0 <= j <= MaxUpdates ==> !Stops(n, s)(j)
    requires Stops(n, s)(MaxUpdates + 1)
    ensures ClothingSolution(n, s) == Failure(MaxIterationsExceeded)
  {
  }

  lemma SolutionAtFirstStop(n: Numerics, s: Setup, k: nat)
    requires Sound(n) && WellFormed(s)
    requires k <= MaxUpdates && Converged(StateAfter(n, s, k))
    requires forall j :: 0 <= j < k ==> !Stops(n, s)(j)
    ensures ClothingSolution(n, s) == Success((StateAfter(n, s, k), k))
  {
    FirstFromIs(Stops(n, s), 0, MaxUpdates, k);
  }

  lemma SolutionWhenNoneStops(n: Numerics, s: Setup)
    requires Sound(n) && WellFormed(s)
    requires forall j :: 0 <= j <= MaxUpdates ==> !Stops(n, s)(j)
    ensures ClothingSolution(n, s) == Failure(MaxIterationsExceeded)
  {
    FirstFromNone(Stops(n, s), 0, MaxUpdates);
  }

  /** The loop of lines 255-266 as written, with its update counter. */
  method SolveClothingTemperature(n: Numerics, s: Setup) returns (r: Result<(Iterate, nat)>)
    requires Sound(n) && WellFormed(s)
    ensures r == ClothingSolution(n, s)
  {
    var xf, xn, hc := s.tcla / 50.0, s.tcla / 100.0, s.hcf;
    var updates := 0;
    while Abs(xn - xf) > Eps
      invariant updates <= MaxUpdates
      invariant Iterate(xf, xn, hc) == StateAfter(n, s, updates)
      invariant forall j :: 0 <= j < updates ==> !Stops(n, s)(j)
      decreases MaxUpdates - updates
    {
      assert !Stops(n, s)(updates);
      ghost var before := Iterate(xf, xn, hc);
      xf := (xf + xn) / 2.0;
      var hcn := NaturalConvection(n, s, xf);
      if s.hcf > hcn {
        hc := s.hcf;
      } else {
        hc := hcn;
      }
      xn := NextXn(s, xf, hc);
      assert Iterate(xf, xn, hc) == Update(n, s, before);
      updates := updates + 1;
      if updates > MaxUpdates {
        SolutionWhenNoneStops(n, s);
        return Failure(MaxIterationsExceeded);
      }
    }
    SolutionAtFirstStop(n, s, updates);
    r := Success((Iterate(xf, xn, hc), updates));
  }

  /** The six channels (W/m2), the index and the predicted percentage dissatisfied. */
  datatype Breakdown = Breakdown(
    pmv: real, ppd: real,
    hl1: real,   // water vapour diffusion through the skin
    hl2: real,   // evaporation of sweat
    hl3: real,   // respiration, latent
    hl4: real,   // respiration, sensible
    hl5: real,   // radiation from the clothing surface
    hl6: real)   // convection from the clothing surface

  function Latent(b: Breakdown): real { b.hl1 + b.hl2 + b.hl3 }
  function Sensible(b: Breakdown): real { b.hl4 + b.hl5 + b.hl6 }
  function TotalLoss(b: Breakdown): real { b.hl1 + b.hl2 + b.hl3 + b.hl4 + b.hl5 + b.hl6 }

  /** PPD of ISO 7730 clause 5 from PMV. */
  function Ppd(n: Numerics, pmv: real): (ppd: real)
    requires Sound(n)
    ensures 5.0 <= ppd < 100.0
    ensures pmv == 0.0 ==> ppd == 5.0
  {
    var arg := -0.03353 * Pow4(pmv) - 0.2179 * (pmv * pmv);
    assert arg <= 0.0;
    ExpOfNonPositive(n, arg);
    100.0 - 95.0 * n.exp(arg)
  }

  /** Squaring is strictly increasing on non-negative reals. */
  lemma SquareLess(x: real, y: real)
    requires 0.0 <= x < y
    ensures x * x < y * y
  {
    var d := y - x;
    assert x * d >= 0.0;
    assert y * d > 0.0;
    assert y * y - x * x == x * d + y * d;
  }

  /** PPD depends on |PMV| only, and grows with it. */
  lemma PpdGrowsWithMagnitude(n: Numerics, a: real, b: real)
    requires Sound(n)
    requires Abs(a) < Abs(b)
    ensures Ppd(n, a) < Ppd(n, b)
    ensures Ppd(n, a) == Ppd(n, -a)
  {
    var a2, b2 := a * a, b * b;
    assert a2 == Abs(a) * Abs(a) && b2 == Abs(b) * Abs(b);
    SquareLess(Abs(a), Abs(b));
    SquareLess(a2, b2);
    assert Pow4(a) < Pow4(b);
    var argA := -0.03353 * Pow4(a) - 0.2179 * a2;
    var argB := -0.03353 * Pow4(b) - 0.2179 * b2;
    assert argB < argA;
    assert n.exp(argB) < n.exp(argA);
    assert Pow4(-a) == Pow4(a);
  }

  /** Lines 268-282: the channels at the converged state `it`. The index is
      the thermal sensitivity `ts` times the heat balance, so its sign is the
      sign of `mw - TotalLoss`; sweat is lost only above 58.15 W/m2. */
  function Decompose(n: Numerics, i: Inputs, s: Setup, it: Iterate): (b: Breakdown)
    requires Sound(n)
    ensures s.mw > 58.15 ==> b.hl2 == 0.42 * (s.mw - 58.15) && b.hl2 > 0.0
    ensures s.mw <= 58.15 ==> b.hl2 == 0.0
    ensures b.pmv > 0.0 <==> s.mw > TotalLoss(b)
    ensures b.pmv < 0.0 <==> s.mw < TotalLoss(b)
    ensures b.pmv == 0.0 <==> s.mw == TotalLoss(b)
    ensures b.ppd == Ppd(n, b.pmv)
    ensures 5.0 <= b.ppd < 100.0
  {
    var tcl := 100.0 * it.xn - 273.0;
    var hl1 := 3.05 * 0.001 * (5733.0 - 6.99 * s.mw - s.pa);
    var hl2 := if s.mw > 58.15 then 0.42 * (s.mw - 58.15) else 0.0;
    var hl3 := 1.7 * 0.00001 * s.m * (5867.0 - s.pa);
    var hl4 := 0.0014 * s.m * (34.0 - i.ta);
    var hl5 := 3.96 * s.fcl * (Pow4(it.xn) - Pow4(s.tra / 100.0));
    var hl6 := s.fcl * it.hc * (tcl - i.ta);
    var ts := 0.303 * n.exp(-0.036 * s.m) + 0.028;
    var balance := s.mw - hl1 - hl2 - hl3 - hl4 - hl5 - hl6;
    assert ts > 0.0;
    var pmv := ts * balance;
    SignOfProduct(ts, balance);
    Breakdown(pmv, Ppd(n, pmv), hl1, hl2, hl3, hl4, hl5, hl6)
  }

  lemma SignOfProduct(t: real, x: real)
    requires t > 0.0
    ensures t * x > 0.0 <==> x > 0.0
    ensures t * x < 0.0 <==> x < 0.0
    ensures t * x == 0.0 <==> x == 0.0
  {
    if x > 0.0 {
      assert t * x > 0.0;
    } else if x < 0.0 {
      assert t * x < 0.0;
    }
  }

  /** `pmv_pdd_6_heat_loss`: prepare, solve for the clothing temperature,
      decompose; the loop's iteration error propagates. */
  function HeatLossBreakdown(n: Numerics, i: Inputs): (r: Result<Breakdown>)
    requires Sound(n) && Admissible(i)
    ensures r.Failure? <==> ClothingSolution(n, Prepare(n, i)).Failure?
    ensures r.Success? ==> 5.0 <= r.value.ppd < 100.0
    ensures r.Success? ==> (r.value.hl2 > 0.0 <==> i.met * 58.15 - i.wme * 58.15 > 58.15)
  {
    var s := Prepare(n, i);
    match ClothingSolution(n, s)
    case Failure(e) => Failure(e)
    case Success((it, k)) =>
      Success(Decompose(n, i, s, it))
  }

  /** One chart row: the six channels, the latent, sensible and total sums
      (each rounded from the unrounded channels) and the metabolic rate. */
  datatype Row = Row(h1: real, h2: real, h3: real, h4: real, h5: real,
                     h6: real, h7: real, h8: real, h9: real, h10: real)

  function RowOf(n: Numerics, b: Breakdown, met: real): Row {
    var r1 := (x: real) => n.round(x, 1);
    Row(r1(b.hl1), r1(b.hl2), r1(b.hl3), r1(b.hl4), r1(b.hl5), r1(b.hl6),
        r1(Latent(b)), r1(Sensible(b)), r1(TotalLoss(b)), r1(met * 58.15))
  }

  /** The crossing the heat-loss chart draws: the total loss (column `h9`
      before rounding) equals the metabolic rate less the external work
      exactly at a neutral PMV, and falls short of it exactly when the PMV
      is positive. The chart calls with no external work, so there the total
      meets the metabolic column (`h10` before rounding). */
  lemma TotalMeetsMetabolicAtNeutral(n: Numerics, i: Inputs)
    requires Sound(n) && Admissible(i)
    ensures HeatLossBreakdown(n, i).Success? ==>
      var b, produced := HeatLossBreakdown(n, i).value, i.met * 58.15 - i.wme * 58.15;
      && (TotalLoss(b) == produced <==> b.pmv == 0.0)
      && (TotalLoss(b) < produced <==> b.pmv > 0.0)
      && (TotalLoss(b) > produced <==> b.pmv < 0.0)
    ensures i.wme == 0.0 && HeatLossBreakdown(n, i).Success? ==>
      var b := HeatLossBreakdown(n, i).value;
      && (Latent(b) + Sensible(b) == i.met * 58.15 <==> b.pmv == 0.0)
      && (Latent(b) + Sensible(b) < i.met * 58.15 <==> b.pmv > 0.0)
  {
    if HeatLossBreakdown(n, i).Success? {
      var s := Prepare(n, i);
      var it := ClothingSolution(n, s).value.0;
      assert HeatLossBreakdown(n, i).value == Decompose(n, i, s, it);
    }
  }

  /** The chart inputs `get_heat_losses` reads, with the relative air speed
      and dynamic clothing already computed by the comfort library. */
  datatype ChartInputs = ChartInputs(tr: real, vel: real, rh: real, met: real, clo: real)

  /** The unit converters used in IP mode (degF to degC, ft/s to m/s). */
  datatype Converters = Converters(toCelsius: real -> real, fpsToMps: real -> real)

  /** `count` consecutive integers from `first`, as reals (`np.arange`). */
  function IntRange(first: int, count: nat): (r: seq<real>)
    ensures |r| == count
    ensures forall k :: 0 <= k < count ==> r[k] == (first + k) as real
  {
    seq(count, k => (first + k) as real)
  }

  /** The chart's temperature axis: 10..40 degC in SI, 50..104 degF in IP. */
  function SeriesTemps(units: Units): (r: seq<real>)
    ensures units == SI ==> |r| == 31 && r[0] == 10.0 && r[30] == 40.0
    ensures units == IP ==> |r| == 55 && r[0] == 50.0 && r[54] == 104.0
  {
    if units == SI then IntRange(10, 31) else IntRange(50, 55)
  }

  /** The arguments of the call made at axis temperature `ta`: IP values of
      the temperatures and the air speed are converted to SI first; the
      external work is 0. */
  function CallInputs(units: Units, c: Converters, ci: ChartInputs, ta: real): Inputs {
    if units == SI then Inputs(ta, ci.tr, ci.vel, ci.rh, ci.met, ci.clo, 0.0)
    else Inputs(c.toCelsius(ta), c.toCelsius(ci.tr), c.fpsToMps(ci.vel), ci.rh, ci.met, ci.clo, 0.0)
  }

  /** Every call of the series gets admissible arguments. */
  predicate SeriesAdmissible(units: Units, c: Converters, ci: ChartInputs) {
    AllAdmissible(units, c, ci, SeriesTemps(units))
  }

  predicate AllAdmissible(units: Units, c: Converters, ci: ChartInputs, temps: seq<real>) {
    forall k :: 0 <= k < |temps| ==> Admissible(CallInputs(units, c, ci, temps[k]))
  }

  /** The row contributed by axis temperature `ta`, or the error of its call. */
  function RowAt(n: Numerics, units: Units, c: Converters, ci: ChartInputs, ta: real): (r: Result<Row>)
    requires Sound(n) && Admissible(CallInputs(units, c, ci, ta))
    ensures r.Success? <==> HeatLossBreakdown(n, CallInputs(units, c, ci, ta)).Success?
    ensures r.Success? ==> r.value == RowOf(n, HeatLossBreakdown(n, CallInputs(units, c, ci, ta)).value, ci.met)
    ensures r.Failure? ==> r.error == MaxIterationsExceeded
  {
    match HeatLossBreakdown(n, CallInputs(units, c, ci, ta))
    case Failure(e) => Failure(e)
    case Success(b) => Success(RowOf(n, b, ci.met))
  }

  /** `get_heat_losses`: one call per axis temperature, in axis order,
      31 rows in SI and 55 in IP; the first failing call aborts the whole
      series. */
  method GetHeatLosses(n: Numerics, c: Converters, ci: ChartInputs, units: Units)
    returns (temps: seq<real>, r: Result<seq<Row>>)
    requires Sound(n) && SeriesAdmissible(units, c, ci)
    ensures temps == SeriesTemps(units)
    ensures r.Success? <==> forall k :: 0 <= k < |temps| ==> RowAt(n, units, c, ci, temps[k]).Success?
    ensures r.Failure? ==> r.error == MaxIterationsExceeded
    ensures r.Success? ==> |r.value| == |temps| == (if units == SI then 31 else 55)
    ensures r.Success? ==>
      && |r.value| == |temps|
      && forall k :: 0 <= k < |temps| ==> RowAt(n, units, c, ci, temps[k]) == Success(r.value[k])
  {
    temps := SeriesTemps(units);
    var rowAt := (t: real) requires Admissible(CallInputs(units, c, ci, t)) => RowAt(n, units, c, ci, t);
    r := CollectEach(temps, rowAt);
  }

  /** In SI every axis temperature is admissible, so the series needs only
      non-negative clothing and air speed. */
  lemma SIAxisAdmissible(c: Converters, ci: ChartInputs)
    requires ci.clo >= 0.0 && ci.vel >= 0.0
    ensures SeriesAdmissible(SI, c, ci)
  {
  }
}
