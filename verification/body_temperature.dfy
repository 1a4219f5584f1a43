/** The relaxation loop of `SET_outputs_chart`: for each dry-bulb
    temperature of the chart, the two-node model's outputs are taken from the
    comfort library and the final clothing and mean body temperatures are
    recomputed by 60 outer steps, each holding an inner clothing-temperature
    loop capped at 150 passes.

    The two-node model, the cooling effect and `pow` are foreign; they are
    parameters. */
module BodyTemperature {
  import opened Common
  import opened Numerics
  import opened FirstHit

  /** Stefan-Boltzmann constant as written in the source (W/m2K4). */
  const Sbc: real := 0.000000056697
  /** Outer steps of the simulation. */
  const OuterSteps: nat := 60
  /** The inner loop raises once its pass count exceeds this. */
  const InnerCap: nat := 150
  /** Inner-loop tolerance on successive clothing temperatures (K). */
  const ClothingTol: real := 0.01
  /** Absolute zero in degC: the radiation coefficient is positive above it. */
  const AbsoluteZero: real := -273.15

  /** Body position; every value other than "sitting" counts as standing. */
  datatype Position = Sitting | Standing

  /** Share of the body area that radiates. */
  function RadiatingFraction(p: Position): real {
    if p == Sitting then 0.7 else 0.73
  }

  /** The outputs of the two-node model this chart uses. */
  datatype TwoNodes = TwoNodes(
    setTemp: real, tSkin: real, tCore: real, eSkin: real, eRsw: real,
    qSensible: real, qSkin: real, qRes: real, w: real, mBl: real)

  /** Chart inputs after the relative air speed and the dynamic clothing
      insulation have been computed. `pAtm` is in Pa. */
  datatype SetInputs = SetInputs(
    tr: real, vr: real, rh: real, met: real, clo: real,
    pAtm: real, position: Position, calculateCe: bool)

  predicate InputsOk(si: SetInputs) {
    si.clo >= 0.0 && si.pAtm > 0.0
  }

  /** `np.arange(10, 41, 5)`: 10, 15, ..., 40 degC. */
  function TdbAxis(): (r: seq<real>)
    ensures |r| == 7
    ensures forall k :: 0 <= k < 7 ==> r[k] == 10.0 + 5.0 * k as real
    ensures r[0] == 10.0 && r[6] == 40.0
  {
    seq(7, k => 10.0 + 5.0 * k as real)
  }

  /** Clothing resistance, clothing area factor and the convective
      coefficient, fixed for one dry-bulb temperature. */
  datatype Convection = Convection(rClo: real, faCl: real, hcc: real)

  predicate ConvectionOk(cv: Convection) {
    cv.rClo >= 0.0 && cv.faCl >= 1.0 && cv.hcc > 0.0
  }

  /** The ambient pressure in atmospheres. */
  function Atmospheres(si: SetInputs): real {
    si.pAtm / 101325.0
  }

  /** Lines 804-814: `h_cc` is the largest of the still-air, forced and (when
      the cooling effect is not being computed and met > 0.85) metabolic
      coefficients. */
  function ConvectionOf(n: Numerics, si: SetInputs): (cv: Convection)
    requires Sound(n) && InputsOk(si)
    ensures ConvectionOk(cv)
    ensures cv.rClo == 0.155 * si.clo && cv.faCl == 1.0 + 0.15 * si.clo
    ensures cv.hcc >= 3.0 * n.pow(Atmospheres(si), 0.53)
    ensures cv.hcc >= 8.600001 * n.pow(si.vr * Atmospheres(si), 0.53)
    ensures !si.calculateCe && si.met > 0.85 ==> cv.hcc >= 5.66 * n.pow(si.met - 0.85, 0.39)
    ensures || cv.hcc == 3.0 * n.pow(Atmospheres(si), 0.53)
            || cv.hcc == 8.600001 * n.pow(si.vr * Atmospheres(si), 0.53)
            || (!si.calculateCe && si.met > 0.85 && cv.hcc == 5.66 * n.pow(si.met - 0.85, 0.39))
  {
    var still := 3.0 * n.pow(Atmospheres(si), 0.53);
    var forced := 8.600001 * n.pow(si.vr * Atmospheres(si), 0.53);
    var hcc := Max(still, forced);
    var hcc' := if !si.calculateCe && si.met > 0.85 then Max(hcc, 5.66 * n.pow(si.met - 0.85, 0.39)) else hcc;
    assert hcc' >= hcc;
    Convection(0.155 * si.clo, 1.0 + 0.15 * si.clo, hcc')
  }

  /** The three temperatures the clothing surface exchanges heat with. */
  datatype Env = Env(tdb: real, tr: real, tSkin: real)

  function Lo(e: Env): real {
    if e.tdb <= e.tr && e.tdb <= e.tSkin then e.tdb
    else if e.tr <= e.tSkin then e.tr else e.tSkin
  }

  function Hi(e: Env): real {
    if e.tdb >= e.tr && e.tdb >= e.tSkin then e.tdb
    else if e.tr >= e.tSkin then e.tr else e.tSkin
  }

  /** All three temperatures are above absolute zero. */
  predicate Physical(e: Env) {
    Lo(e) > AbsoluteZero
  }

  /** `t` lies between the lowest and the highest of the three. */
  predicate InHull(e: Env, t: real) {
    Lo(e) <= t <= Hi(e)
  }

  /** What one inner pass leaves behind for the next outer step: the air
      resistance `r_a` and the operative temperature `t_op`. */
  datatype Carry = Carry(ra: real, top: real)

  predicate CarryOk(e: Env, c: Carry) {
    c.ra > 0.0 && InHull(e, c.top)
  }

  /** A weighted mean with non-negative weights lies between its points. */
  lemma WeightedMean(a: real, b: real, x: real, y: real, lo: real, hi: real)
    requires a >= 0.0 && b >= 0.0 && a + b > 0.0
    requires lo <= x <= hi && lo <= y <= hi
    ensures lo <= (a * x + b * y) / (a + b) <= hi
  {
    var s := a + b;
    var q := (a * x + b * y) / s;
    assert q * s == a * x + b * y;
    MulNonNegative(a, x - lo);
    MulNonNegative(b, y - lo);
    MulNonNegative(a, hi - x);
    MulNonNegative(b, hi - y);
    assert (q - lo) * s >= 0.0;
    assert (hi - q) * s >= 0.0;
    if q < lo {
      MulNegative(q - lo, s);
    }
    if q > hi {
      MulNegative(hi - q, s);
    }
  }

  lemma MulNonNegative(a: real, b: real)
    requires a >= 0.0 && b >= 0.0
    ensures a * b >= 0.0
  {
  }

  lemma MulPositive(a: real, b: real)
    requires a > 0.0 && b > 0.0
    ensures a * b > 0.0
  {
  }

  lemma MulNegative(a: real, b: real)
    requires a < 0.0 && b > 0.0
    ensures a * b < 0.0
  {
  }

  /** Radiative coefficient at clothing temperature `tcl` (lines 828-833). */
  function RadiationCoeff(pos: Position, tcl: real, tr: real): (hr: real)
    ensures (tcl + tr) / 2.0 + 273.15 > 0.0 ==> hr > 0.0
  {
    var base := (tcl + tr) / 2.0 + 273.15;
    if base > 0.0 then
      assert base * base > 0.0;
      assert Cube(base) > 0.0;
      4.0 * 0.95 * Sbc * Cube(base) * RadiatingFraction(pos)
    else
      4.0 * 0.95 * Sbc * Cube(base) * RadiatingFraction(pos)
  }

  /** The clothing temperature balanced between the skin and the operative
      temperature (lines 822-824 and 837). */
  function Guess(cv: Convection, e: Env, c: Carry): (t: real)
    requires ConvectionOk(cv) && CarryOk(e, c)
    ensures InHull(e, t)
  {
    WeightedMean(c.ra, cv.rClo, e.tSkin, c.top, Lo(e), Hi(e));
    (c.ra * e.tSkin + cv.rClo * c.top) / (c.ra + cv.rClo)
  }

  /** The air resistance and operative temperature for radiative
      coefficient `hr` (lines 815-818 and 833-835): `t_op` is the mean of the
      radiant and air temperatures weighted by `h_r` and `h_cc`. */
  function CarryFor(cv: Convection, e: Env, hr: real): (c: Carry)
    requires ConvectionOk(cv) && Physical(e) && hr > 0.0
    ensures CarryOk(e, c)
  {
    var ht := hr + cv.hcc;
    MulPositive(cv.faCl, ht);
    WeightedMean(hr, cv.hcc, e.tr, e.tdb, Lo(e), Hi(e));
    Carry(1.0 / (cv.faCl * ht), (hr * e.tr + cv.hcc * e.tdb) / ht)
  }

  /** The carry before the first outer step, with `h_r = 4.7`. */
  function InitialCarry(cv: Convection, e: Env): (c: Carry)
    requires ConvectionOk(cv) && Physical(e)
    ensures CarryOk(e, c)
  {
    CarryFor(cv, e, 4.7)
  }

  /** A clothing temperature with the coefficients computed from it. */
  datatype Relaxed = Relaxed(tcl: real, carry: Carry)

  /** One inner pass (lines 826-837): update `h_r` from the current clothing
      temperature, then `r_a`, `t_op` and the new clothing temperature.
      Every pass maps the hull into itself, so no division is by zero. */
  function Relax(cv: Convection, e: Env, pos: Position, tcl: real): (r: Relaxed)
    requires ConvectionOk(cv) && Physical(e) && InHull(e, tcl)
    ensures InHull(e, r.tcl) && CarryOk(e, r.carry)
    ensures r.tcl == Guess(cv, e, r.carry)
  {
    var hr := RadiationCoeff(pos, tcl, e.tr);
    var c := CarryFor(cv, e, hr);
    Relaxed(Guess(cv, e, c), c)
  }

  /** The state after `k` inner passes starting from carry `c0`; pass 0 is
      the initial guess. */
  function InnerState(cv: Convection, e: Env, pos: Position, c0: Carry, k: nat): (r: Relaxed)
    requires ConvectionOk(cv) && Physical(e) && CarryOk(e, c0)
    ensures InHull(e, r.tcl) && CarryOk(e, r.carry)
  {
    if k == 0 then Relaxed(Guess(cv, e, c0), c0)
    else Relax(cv, e, pos, InnerState(cv, e, pos, c0, k - 1).tcl)
  }

  /** Whether pass `k` (counting from 1) sets the converged flag. */
  predicate SettledAt(cv: Convection, e: Env, pos: Position, c0: Carry, k: nat)
    requires ConvectionOk(cv) && Physical(e) && CarryOk(e, c0)
  {
    k >= 1 && Abs(InnerState(cv, e, pos, c0, k).tcl - InnerState(cv, e, pos, c0, k - 1).tcl) <= ClothingTol
  }

  function Settles(cv: Convection, e: Env, pos: Position, c0: Carry): nat -> bool
    requires ConvectionOk(cv) && Physical(e) && CarryOk(e, c0)
  {
    (k: nat) => SettledAt(cv, e, pos, c0, k)
  }

  /** The inner loop as a whole: it returns the state after the first pass
      that converges when that pass is among the first 150, and raises
      otherwise, even when pass 151 converges. */
  function InnerSolve(cv: Convection, e: Env, pos: Position, c0: Carry): (r: Result<Relaxed>)
    requires ConvectionOk(cv) && Physical(e) && CarryOk(e, c0)
    ensures r.Success? <==> exists k :: 1 <= k <= InnerCap && Settles(cv, e, pos, c0)(k)
    ensures r.Success? ==> InHull(e, r.value.tcl) && CarryOk(e, r.value.carry)
    ensures r.Failure? ==> r.error == MaxIterationsExceeded
  {
    match FirstFrom(Settles(cv, e, pos, c0), 1, InnerCap)
    case None => Failure(MaxIterationsExceeded)
    case Some(k) => Success(InnerState(cv, e, pos, c0, k))
  }

  lemma InnerSolveAt(cv: Convection, e: Env, pos: Position, c0: Carry, k: nat)
    requires ConvectionOk(cv) && Physical(e) && CarryOk(e, c0)
    requires 1 <= k <= InnerCap && Settles(cv, e, pos, c0)(k)
    requires forall j :: 1 <= j < k ==> !Settles(cv, e, pos, c0)(j)
    ensures InnerSolve(cv, e, pos, c0) == Success(InnerState(cv, e, pos, c0, k))
  {
    FirstFromIs(Settles(cv, e, pos, c0), 1, InnerCap, k);
  }

  lemma InnerSolveNone(cv: Convection, e: Env, pos: Position, c0: Carry)
    requires ConvectionOk(cv) && Physical(e) && CarryOk(e, c0)
    requires forall j :: 1 <= j <= InnerCap ==> !Settles(cv, e, pos, c0)(j)
    ensures InnerSolve(cv, e, pos, c0) == Failure(MaxIterationsExceeded)
  {
    FirstFromNone(Settles(cv, e, pos, c0), 1, InnerCap);
  }

  /** The inner loop is raised past its cap even if pass 151 would meet the
      tolerance. */
  lemma InnerCapOverridesLateConvergence(cv: Convection, e: Env, pos: Position, c0: Carry)
    requires ConvectionOk(cv) && Physical(e) && CarryOk(e, c0)
    requires forall j :: 1 <= j <= InnerCap ==> !Settles(cv, e, pos, c0)(j)
    requires Settles(cv, e, pos, c0)(InnerCap + 1)
    ensures InnerSolve(cv, e, pos, c0).Failure?
  {
  }

  /** The inner loop of lines 820-846 as written: a do-while on the
      converged flag with the pass counter checked after each pass. */
  method SolveClothing(cv: Convection, e: Env, pos: Position, c0: Carry) returns (r: Result<Relaxed>)
    requires ConvectionOk(cv) && Physical(e) && CarryOk(e, c0)
    ensures r == InnerSolve(cv, e, pos, c0)
  {
    var ra, top := c0.ra, c0.top;
    var tcl := Guess(cv, e, c0);
    var iterations := 0;
    var converged := false;
    while !converged
      invariant iterations <= InnerCap
      invariant Relaxed(tcl, Carry(ra, top)) == InnerState(cv, e, pos, c0, iterations)
      invariant converged <==> Settles(cv, e, pos, c0)(iterations)
      invariant forall j :: 1 <= j < iterations ==> !Settles(cv, e, pos, c0)(j)
      decreases InnerCap - iterations
    {
      var r' := Relax(cv, e, pos, tcl);
      ra, top := r'.carry.ra, r'.carry.top;
      var tclNew := r'.tcl;
      if Abs(tclNew - tcl) <= ClothingTol {
        converged := true;
      }
      tcl := tclNew;
      iterations := iterations + 1;
      assert Relaxed(tcl, Carry(ra, top)) == InnerState(cv, e, pos, c0, iterations);
      if iterations > InnerCap {
        InnerSolveNone(cv, e, pos, c0);
        return Failure(MaxIterationsExceeded);
      }
    }
    InnerSolveAt(cv, e, pos, c0, iterations);
    r := Success(Relaxed(tcl, Carry(ra, top)));
  }

  /** The body-temperature weight of the first outer step. */
  const FirstAlfa: real := 0.1

  /** The weight every later step uses, from the skin blood flow (line 849). */
  function SteadyAlfa(mBl: real): real
    requires mBl + 0.585417 != 0.0
  {
    0.0417737 + 0.7451833 / (mBl + 0.585417)
  }

  /** Mean body temperature as a skin/core blend with skin weight `alfa`. */
  function Blend(alfa: real, tn: TwoNodes): real {
    alfa * tn.tSkin + (1.0 - alfa) * tn.tCore
  }

  /** The outer loop with `remaining` steps to go from carry `c`: each step
      runs the inner loop from the coefficients the previous step left
      behind, and the first failing inner loop fails the simulation. `last`
      is the result of the step already taken; it is returned once no step
      remains. */
  function OuterRun(cv: Convection, e: Env, pos: Position, c: Carry, remaining: nat, last: Relaxed): (r: Result<Relaxed>)
    requires ConvectionOk(cv) && Physical(e) && CarryOk(e, c)
    ensures remaining >= 1 && r.Success? ==> InHull(e, r.value.tcl) && CarryOk(e, r.value.carry)
    ensures r.Failure? ==> r.error == MaxIterationsExceeded
    decreases remaining
  {
    if remaining == 0 then Success(last)
    else match InnerSolve(cv, e, pos, c)
      case Failure(err) => Failure(err)
      case Success(next) => OuterRun(cv, e, pos, next.carry, remaining - 1, next)
  }

  /** The simulation succeeds only if the inner loop of its first step does. */
  lemma OuterNeedsFirstStep(cv: Convection, e: Env, pos: Position, c: Carry, remaining: nat, last: Relaxed)
    requires ConvectionOk(cv) && Physical(e) && CarryOk(e, c) && remaining >= 1
    ensures OuterRun(cv, e, pos, c, remaining, last).Success? ==> InnerSolve(cv, e, pos, c).Success?
  {
  }

  /** The final clothing temperature of the 60-step simulation, or its error. */
  function FinalClothing(cv: Convection, e: Env, pos: Position): (r: Result<real>)
    requires ConvectionOk(cv) && Physical(e)
    ensures r.Success? ==> InHull(e, r.value)
    ensures r.Success? ==> InnerSolve(cv, e, pos, InitialCarry(cv, e)).Success?
  {
    var c0 := InitialCarry(cv, e);
    match OuterRun(cv, e, pos, c0, OuterSteps, Relaxed(0.0, c0))
    case Failure(err) => Failure(err)
    case Success(last) =>
      OuterNeedsFirstStep(cv, e, pos, c0, OuterSteps, Relaxed(0.0, c0));
      Success(last.tcl)
  }

  /** Lines 812-854 as written: 60 outer steps, each running the inner loop
      and then blending the body temperature with the current `alfa`, which
      changes to the steady weight after the first step. Returns the final
      clothing and mean body temperatures. */
  method Simulate(cv: Convection, e: Env, pos: Position, tn: TwoNodes) returns (r: Result<(real, real)>)
    requires ConvectionOk(cv) && Physical(e) && tn.mBl + 0.585417 != 0.0
    ensures r.Success? <==> FinalClothing(cv, e, pos).Success?
    ensures r.Success? ==> r.value.0 == FinalClothing(cv, e, pos).value
    ensures r.Success? ==> r.value.1 == Blend(SteadyAlfa(tn.mBl), tn)
    ensures r.Failure? ==> r.error == MaxIterationsExceeded
  {
    var alfa := FirstAlfa;
    var carry := InitialCarry(cv, e);
    var tcl, tBody := 0.0, 0.0;
    var steps := 0;
    ghost var whole := OuterRun(cv, e, pos, carry, OuterSteps - steps, Relaxed(tcl, carry));
    ghost var used := alfa;
    while steps < OuterSteps
      invariant 0 <= steps <= OuterSteps
      invariant CarryOk(e, carry)
      invariant whole == OuterRun(cv, e, pos, carry, OuterSteps - steps, Relaxed(tcl, carry))
      invariant alfa == (if steps == 0 then FirstAlfa else SteadyAlfa(tn.mBl))
      invariant steps >= 1 ==> tBody == Blend(used, tn)
      invariant steps == 1 ==> used == FirstAlfa
      invariant steps >= 2 ==> used == SteadyAlfa(tn.mBl)
    {
      steps := steps + 1;
      var inner := SolveClothing(cv, e, pos, carry);
      if inner.Failure? {
        return Failure(inner.error);
      }
      tcl, carry := inner.value.tcl, inner.value.carry;
      tBody, used := Blend(alfa, tn), alfa;
      alfa := SteadyAlfa(tn.mBl);
    }
    r := Success((tcl, tBody));
  }

  /** One point of the chart (lines 766-797 and 855-862): the two-node
      temperatures and the recomputed clothing and body temperatures are
      shifted down by the cooling effect; heat flows are copied, the vapour
      diffusion loss is the part of the skin evaporation not due to sweat,
      and wettedness is given in percent. */
  datatype SetRow = SetRow(
    setTemp: real, skin: real, core: real, clothing: real, body: real,
    eSkin: real, eRsw: real, eDiff: real, qSensible: real, qSkin: real,
    qRes: real, wettedness: real)

  /** The two-node outputs at `tdb` allow the relaxation loop: every
      temperature above absolute zero and a blood flow the weight formula
      can divide by. */
  predicate PointOk(si: SetInputs, tdb: real, tn: TwoNodes) {
    Physical(Env(tdb, si.tr, tn.tSkin)) && tn.mBl + 0.585417 != 0.0
  }

  function SetRowAt(n: Numerics, si: SetInputs, twoNodes: real -> TwoNodes,
                    coolingEffect: real -> real, tdb: real): (r: Result<SetRow>)
    requires Sound(n) && InputsOk(si) && PointOk(si, tdb, twoNodes(tdb))
    ensures r.Success? <==>
      FinalClothing(ConvectionOf(n, si), Env(tdb, si.tr, twoNodes(tdb).tSkin), si.position).Success?
    ensures r.Failure? ==> r.error == MaxIterationsExceeded
  {
    var tn, ce := twoNodes(tdb), coolingEffect(tdb);
    match FinalClothing(ConvectionOf(n, si), Env(tdb, si.tr, tn.tSkin), si.position)
    case Failure(err) => Failure(err)
    case Success(tcl) =>
      Success(SetRow(
        tn.setTemp - ce, tn.tSkin - ce, tn.tCore - ce, tcl - ce, Blend(SteadyAlfa(tn.mBl), tn) - ce,
        tn.eSkin, tn.eRsw, tn.eSkin - tn.eRsw, tn.qSensible, tn.qSkin, tn.qRes, tn.w * 100.0))
  }

  /** What a row of the chart holds: the clothing and body temperatures of
      the simulation and the two-node temperatures, all shifted by the same
      cooling effect, so differences between them are kept; the skin
      evaporation splits into its sweat and diffusion parts. */
  lemma SetRowMeaning(n: Numerics, si: SetInputs, twoNodes: real -> TwoNodes,
                      coolingEffect: real -> real, tdb: real)
    requires Sound(n) && InputsOk(si) && PointOk(si, tdb, twoNodes(tdb))
    ensures SetRowAt(n, si, twoNodes, coolingEffect, tdb).Success? ==>
      var row, tn, ce := SetRowAt(n, si, twoNodes, coolingEffect, tdb).value, twoNodes(tdb), coolingEffect(tdb);
      && row.clothing + ce == FinalClothing(ConvectionOf(n, si), Env(tdb, si.tr, tn.tSkin), si.position).value
      && row.body + ce == Blend(SteadyAlfa(tn.mBl), tn)
      && row.setTemp - row.skin == tn.setTemp - tn.tSkin
      && row.skin - row.core == tn.tSkin - tn.tCore
      && row.eSkin == row.eRsw + row.eDiff
      && row.wettedness == 100.0 * tn.w
  {
  }

  /** Every point of the axis `tdbs` allows the relaxation loop. */
  predicate AllPointsOk(si: SetInputs, twoNodes: real -> TwoNodes, tdbs: seq<real>) {
    forall k :: 0 <= k < |tdbs| ==> PointOk(si, tdbs[k], twoNodes(tdbs[k]))
  }

  /** `SET_outputs_chart` in SI: one point per temperature of the axis, in
      order; an inner loop that raises aborts the whole chart. */
  method SetOutputsChart(n: Numerics, si: SetInputs, twoNodes: real -> TwoNodes, coolingEffect: real -> real)
    returns (tdbs: seq<real>, r: Result<seq<SetRow>>)
    requires Sound(n) && InputsOk(si) && AllPointsOk(si, twoNodes, TdbAxis())
    ensures tdbs == TdbAxis()
    ensures r.Success? <==> forall k :: 0 <= k < |tdbs| ==> SetRowAt(n, si, twoNodes, coolingEffect, tdbs[k]).Success?
    ensures r.Failure? ==> r.error == MaxIterationsExceeded
    ensures r.Success? ==>
      && |r.value| == |tdbs| == 7
      && forall k :: 0 <= k < |tdbs| ==> SetRowAt(n, si, twoNodes, coolingEffect, tdbs[k]) == Success(r.value[k])
  {
    tdbs := TdbAxis();
    var rowAt := (t: real) requires PointOk(si, t, twoNodes(t)) => SetRowAt(n, si, twoNodes, coolingEffect, t);
    r := CollectEach(tdbs, rowAt);
  }
}
