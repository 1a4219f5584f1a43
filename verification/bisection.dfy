/** Inversion of a comfort index by bisection: `find_tdb_for_pmv` searches a
    fixed dry-bulb temperature interval for the temperature at which the
    index comes within a tolerance of a target value.

    The index evaluator is foreign code; it is a parameter
    `index: real -> Option<real>` whose `None` stands for an evaluation that
    raised and was replaced by NaN. */
module Bisection {
  import opened Common
  import opened FirstHit

  /** The current search interval `[low, high]`. */
  datatype Bracket = Bracket(low: real, high: real)

  /** The starting interval: [10, 40] in SI, [50, 96.8] otherwise. */
  function StartBracket(units: Units): (b: Bracket)
    ensures b.low < b.high
    ensures units == SI ==> b.high - b.low == 30.0
    ensures units == IP ==> b.high - b.low == 46.8
  {
    if units == SI then Bracket(10.0, 40.0) else Bracket(50.0, 96.8)
  }

  function Mid(b: Bracket): real {
    (b.low + b.high) / 2.0
  }

  function Width(b: Bracket): real {
    b.high - b.low
  }

  function Pow2(k: nat): (r: real)
    ensures r >= 1.0
  {
    if k == 0 then 1.0 else 2.0 * Pow2(k - 1)
  }

  /** An evaluation is accepted only when it produced a number within `tol`
      of the target: NaN fails every comparison, so it is never accepted. */
  predicate Accepts(v: Option<real>, target: real, tol: real) {
    v.Some? && Abs(v.value - target) < tol
  }

  /** The interval after a rejected evaluation `v` at the midpoint: a value
      below the target raises `low`; anything else (a value at or above the
      target, or NaN) lowers `high`. */
  function Narrow(b: Bracket, v: Option<real>, target: real): (r: Bracket)
    requires b.low < b.high
    ensures b.low <= r.low < r.high <= b.high
    ensures Width(r) == Width(b) / 2.0
    ensures r.low == b.low || r.high == b.high
    ensures v.None? ==> r.low == b.low && r.high < b.high
    ensures v.Some? && v.value < target ==> r.low > b.low && r.high == b.high
  {
    if v.Some? && v.value < target then Bracket(Mid(b), b.high) else Bracket(b.low, Mid(b))
  }

  /** The interval after `k` rejected evaluations starting from `b`. */
  function BracketAfter(index: real -> Option<real>, target: real, b: Bracket, k: nat): Bracket
    requires b.low < b.high
    decreases k
  {
    if k == 0 then b
    else BracketAfter(index, target, Narrow(b, index(Mid(b)), target), k - 1)
  }

  /** Every interval of the search is non-empty, nested in the starting
      interval, and exactly `Pow2(k)` times narrower. */
  lemma {:induction false} BracketAfterNested(index: real -> Option<real>, target: real, b: Bracket, k: nat)
    requires b.low < b.high
    ensures var bk := BracketAfter(index, target, b, k);
      b.low <= bk.low < bk.high <= b.high && Width(bk) == Width(b) / Pow2(k)
    decreases k
  {
    if k > 0 {
      var b1 := Narrow(b, index(Mid(b)), target);
      BracketAfterNested(index, target, b1, k - 1);
      var bk := BracketAfter(index, target, b1, k - 1);
      assert Width(bk) == Width(b1) / Pow2(k - 1);
      assert Width(b1) == Width(b) / 2.0;
    }
  }

  /** One more narrowing step extends the sequence of intervals at its end. */
  lemma {:induction false} BracketAfterStep(index: real -> Option<real>, target: real, b: Bracket, k: nat)
    requires b.low < b.high
    ensures BracketAfter(index, target, b, k).low < BracketAfter(index, target, b, k).high
    ensures var bk := BracketAfter(index, target, b, k);
      BracketAfter(index, target, b, k + 1) == Narrow(bk, index(Mid(bk)), target)
    decreases k
  {
    BracketAfterNested(index, target, b, k);
    if k > 0 {
      var b1 := Narrow(b, index(Mid(b)), target);
      BracketAfterStep(index, target, b1, k - 1);
    }
  }

  /** The midpoint tested at step `k` of a search from `b`. */
  function Probe(index: real -> Option<real>, target: real, b: Bracket, k: nat): real
    requires b.low < b.high
  {
    Mid(BracketAfter(index, target, b, k))
  }

  /** What `find_tdb_for_pmv` returns for these inputs: success exactly when
      one of the first `maxIter` probes is accepted, and then the rounded
      midpoint of the FIRST accepted probe after `evaluations` calls to the
      index; otherwise the iteration error after `maxIter` calls. */
  ghost predicate IsFindTdbOutcome(index: real -> Option<real>, target: real, units: Units,
                                   tol: real, maxIter: int, round2: real -> real,
                                   r: Result<real>, evaluations: nat)
  {
    var b0 := StartBracket(units);
    && (r.Success? <==> exists k :: 0 <= k < maxIter && Accepts(index(Probe(index, target, b0, k)), target, tol))
    && (r.Success? ==>
          && 1 <= evaluations
          && (maxIter >= 0 ==> evaluations <= maxIter)
          && Accepts(index(Probe(index, target, b0, evaluations - 1)), target, tol)
          && r.value == round2(Probe(index, target, b0, evaluations - 1))
          && b0.low < Probe(index, target, b0, evaluations - 1) < b0.high
          && forall j :: 0 <= j < evaluations - 1 ==> !Accepts(index(Probe(index, target, b0, j)), target, tol))
    && (r.Failure? ==> r.error == MaxIterationsExceeded && evaluations == (if maxIter < 0 then 0 else maxIter))
  }

  /** Whether the evaluation at probe `k` is accepted. */
  function AcceptedAt(index: real -> Option<real>, target: real, tol: real, b0: Bracket): nat -> bool
    requires b0.low < b0.high
  {
    (k: nat) => Accepts(index(Probe(index, target, b0, k)), target, tol)
  }

  /** The search as a function: the rounded first accepted probe among the
      first `maxIter`, or the iteration error. */
  function FindTdb(index: real -> Option<real>, target: real, units: Units,
                   tol: real, maxIter: int, round2: real -> real): Result<real>
  {
    var b0 := StartBracket(units);
    if maxIter <= 0 then Failure(MaxIterationsExceeded)
    else match FirstFrom(AcceptedAt(index, target, tol, b0), 0, maxIter - 1)
      case None => Failure(MaxIterationsExceeded)
      case Some(k) => Success(round2(Probe(index, target, b0, k)))
  }

  /** The outcome when probe `k` is the first accepted one among the first
      `maxIter`: the rounded probe, after `k + 1` evaluations. */
  lemma AcceptedOutcome(index: real -> Option<real>, target: real, units: Units,
                        tol: real, maxIter: int, round2: real -> real, k: nat)
    requires k < maxIter
    requires Accepts(index(Probe(index, target, StartBracket(units), k)), target, tol)
    requires forall j :: 0 <= j < k ==> !Accepts(index(Probe(index, target, StartBracket(units), j)), target, tol)
    ensures var r := Success(round2(Probe(index, target, StartBracket(units), k)));
      IsFindTdbOutcome(index, target, units, tol, maxIter, round2, r, k + 1)
      && FindTdb(index, target, units, tol, maxIter, round2) == r
  {
    var b0 := StartBracket(units);
    BracketAfterNested(index, target, b0, k);
    FirstFromIs(AcceptedAt(index, target, tol, b0), 0, maxIter - 1, k);
  }

  /** The outcome when none of the first `maxIter` probes is accepted. */
  lemma ExhaustedOutcome(index: real -> Option<real>, target: real, units: Units,
                         tol: real, maxIter: int, round2: real -> real)
    requires forall j :: 0 <= j < maxIter ==> !Accepts(index(Probe(index, target, StartBracket(units), j)), target, tol)
    ensures var r := Failure(MaxIterationsExceeded);
      IsFindTdbOutcome(index, target, units, tol, maxIter, round2, r, if maxIter < 0 then 0 else maxIter)
      && FindTdb(index, target, units, tol, maxIter, round2) == r
  {
    if maxIter > 0 {
      FirstFromNone(AcceptedAt(index, target, tol, StartBracket(units)), 0, maxIter - 1);
    }
  }

  /** `find_tdb_for_pmv`: bisection over the unit system's starting interval.
      Returns the midpoint of the first accepted evaluation, rounded by
      `round2` (Python's `round(_, 2)`), or fails after `maxIter`
      rejected evaluations. `evaluations` counts the calls made to `index`. */
  method FindTdbForPmv(index: real -> Option<real>, target: real, units: Units,
                       tol: real, maxIter: int, round2: real -> real)
    returns (r: Result<real>, evaluations: nat)
    ensures IsFindTdbOutcome(index, target, units, tol, maxIter, round2, r, evaluations)
    ensures r == FindTdb(index, target, units, tol, maxIter, round2)
  {
    var b0 := StartBracket(units);
    var low, high := b0.low, b0.high;
    var iterations := 0;
    while iterations < maxIter
      invariant 0 <= iterations
      invariant maxIter >= 0 ==> iterations <= maxIter
      invariant maxIter < 0 ==> iterations == 0
      invariant Bracket(low, high) == BracketAfter(index, target, b0, iterations)
      invariant b0.low <= low < high <= b0.high
      invariant forall j :: 0 <= j < iterations ==> !Accepts(index(Probe(index, target, b0, j)), target, tol)
      decreases maxIter - iterations
    {
      var guess := (low + high) / 2.0;
      var value := index(guess);
      if value.Some? && Abs(value.value - target) < tol {
        assert Probe(index, target, b0, iterations) == guess;
        AcceptedOutcome(index, target, units, tol, maxIter, round2, iterations);
        return Success(round2(guess)), iterations + 1;
      } else if value.Some? && value.value < target {
        low := guess;
      } else {
        high := guess;
      }
      BracketAfterStep(index, target, b0, iterations);
      iterations := iterations + 1;
    }
    ExhaustedOutcome(index, target, units, tol, maxIter, round2);
    r, evaluations := Failure(MaxIterationsExceeded), iterations;
  }

  /** The first probe is the centre of the starting interval: 25 in SI and
      73.4 otherwise. */
  lemma FirstProbeIsCentre(index: real -> Option<real>, target: real, units: Units)
    ensures units == SI ==> Probe(index, target, StartBracket(units), 0) == 25.0
    ensures units == IP ==> Probe(index, target, StartBracket(units), 0) == 73.4
  {
  }

  /** Every probe lies strictly inside the starting interval, and after `k`
      probes the remaining interval is `Pow2(k)` times narrower. */
  lemma ProbesStayInside(index: real -> Option<real>, target: real, units: Units, k: nat)
    ensures var b0 := StartBracket(units);
      b0.low < Probe(index, target, b0, k) < b0.high
    ensures var b0 := StartBracket(units);
      Width(BracketAfter(index, target, b0, k)) == Width(b0) / Pow2(k)
  {
    BracketAfterNested(index, target, StartBracket(units), k);
  }

  /** The search keeps no hidden state: its outcome is a function of its
      inputs, since two outcomes allowed for the same inputs coincide. */
  lemma FindTdbDeterministic(index: real -> Option<real>, target: real, units: Units,
                             tol: real, maxIter: int, round2: real -> real,
                             r1: Result<real>, e1: nat, r2: Result<real>, e2: nat)
    requires IsFindTdbOutcome(index, target, units, tol, maxIter, round2, r1, e1)
    requires IsFindTdbOutcome(index, target, units, tol, maxIter, round2, r2, e2)
    ensures r1 == r2 && e1 == e2
  {
  }
}
