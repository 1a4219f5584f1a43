/** The comfort zones drawn by the charts: grid points found by a root
    search at every (limit, x) pair, bands between neighbouring limits, the
    psychrometric polygons built from bisection results and fitted curves,
    and the adaptive-comfort quadrilaterals.

    The root searches (`optimize.brentq` on the PMV index, and
    `find_tdb_for_pmv`), `psy_ta_rh`, `np.polyfit`, the unit converters and
    `adaptive_en`/`adaptive_ashrae` are foreign; they enter as parameters. */
module Grids {
  import opened Common
  import opened FirstHit
  import opened Bisection
  import opened Curves

  // ---------------------------------------------------------------------
  // Axis values

  /** `np.arange(0, 110, 10)`: relative humidity 0, 10, ..., 100. */
  function RhValues(): (r: seq<real>)
    ensures |r| == 11 && r[0] == 0.0 && r[10] == 100.0
  {
    seq(11, k => 10.0 * k as real)
  }

  /** `np.arange(100, -1, -10)`: relative humidity 100, 90, ..., 0. */
  function UpperRhValues(): (r: seq<real>)
    ensures |r| == 11 && r[0] == 100.0 && r[10] == 0.0
  {
    seq(11, k => 100.0 - 10.0 * k as real)
  }

  /** The descending humidity list is the ascending one reversed. */
  lemma UpperRhIsReverse()
    ensures UpperRhValues() == Reverse(RhValues())
  {
    forall k | 0 <= k < 11
      ensures UpperRhValues()[k] == Reverse(RhValues())[k]
    {
      assert Reverse(RhValues())[k] == RhValues()[10 - k];
    }
  }

  /** `np.arange(0.1, 0.9, 0.1)`: relative air speeds 0.1, ..., 0.8. */
  function SpeedValues(): (r: seq<real>)
    ensures |r| == 8 && r[0] == 0.1 && r[7] == 0.8
    ensures forall k :: 0 <= k < 7 ==> r[k] < r[k + 1]
  {
    seq(8, k => 0.1 + 0.1 * k as real)
  }

  // ---------------------------------------------------------------------
  // Grid points found by a root search

  /** One recorded root: at axis value `x` the index equals `limit` at
      temperature `temp`. */
  datatype GridPoint = GridPoint(x: real, temp: real, limit: real)

  /** The points of one limit, in axis order. `solve(limit, x)` is the root
      search; a search that raised `ValueError` is `None` and skipped
      (`except ValueError: continue`). */
  function RowPoints(limit: real, xs: seq<real>, solve: (real, real) -> Option<real>): (r: seq<GridPoint>)
    ensures |r| <= |xs|
    ensures forall p :: p in r <==> p.limit == limit && p.x in xs && solve(limit, p.x) == Some(p.temp)
    ensures forall k :: 0 <= k < |r| ==> r[k].limit == limit
  {
    if |xs| == 0 then []
    else
      var rest := RowPoints(limit, xs[1..], solve);
      assert forall v :: v in xs <==> v == xs[0] || v in xs[1..];
      match solve(limit, xs[0])
      case None => rest
      case Some(t) => [GridPoint(xs[0], t, limit)] + rest
  }

  /** When every search of a row succeeds, the row has one point per axis
      value, in axis order. */
  lemma {:induction false} RowPointsFull(limit: real, xs: seq<real>, solve: (real, real) -> Option<real>)
    requires forall k :: 0 <= k < |xs| ==> solve(limit, xs[k]).Some?
    ensures |RowPoints(limit, xs, solve)| == |xs|
    ensures forall k :: 0 <= k < |xs| ==>
      RowPoints(limit, xs, solve)[k] == GridPoint(xs[k], solve(limit, xs[k]).value, limit)
  {
    if |xs| > 0 {
      RowPointsFull(limit, xs[1..], solve);
      assert forall k :: 1 <= k < |xs| ==> xs[1..][k - 1] == xs[k];
    }
  }

  /** The points of every limit, limit after limit (the nested loops of
      `calculate_pmv_results` and of `speed_temp_pmv`). */
  function Collect(limits: seq<real>, xs: seq<real>, solve: (real, real) -> Option<real>): (r: seq<GridPoint>)
    ensures forall p :: p in r <==> p.limit in limits && p.x in xs && solve(p.limit, p.x) == Some(p.temp)
    ensures forall k :: 0 <= k < |r| ==> r[k].limit in limits
  {
    if |limits| == 0 then []
    else
      assert forall l :: l in limits <==> l == limits[0] || l in limits[1..];
      RowPoints(limits[0], xs, solve) + Collect(limits[1..], xs, solve)
  }

  /** `df[df["pmv_limit"] == limit]`: the points of one limit, order kept. */
  function OfLimit(points: seq<GridPoint>, limit: real): (r: seq<GridPoint>)
    ensures |r| <= |points|
    ensures forall p :: p in r <==> p in points && p.limit == limit
    ensures (forall k :: 0 <= k < |points| ==> points[k].limit != limit) ==> r == []
  {
    if |points| == 0 then []
    else
      assert forall p :: p in points <==> p == points[0] || p in points[1..];
      (if points[0].limit == limit then [points[0]] else []) + OfLimit(points[1..], limit)
  }

  lemma {:induction false} OfLimitConcat(a: seq<GridPoint>, b: seq<GridPoint>, limit: real)
    ensures OfLimit(a + b, limit) == OfLimit(a, limit) + OfLimit(b, limit)
  {
    if |a| > 0 {
      assert (a + b)[0] == a[0];
      assert (a + b)[1..] == a[1..] + b;
      OfLimitConcat(a[1..], b, limit);
    } else {
      assert a + b == b;
    }
  }

  lemma {:induction false} OfLimitKeepsAll(points: seq<GridPoint>, limit: real)
    requires forall k :: 0 <= k < |points| ==> points[k].limit == limit
    ensures OfLimit(points, limit) == points
  {
    if |points| > 0 {
      OfLimitKeepsAll(points[1..], limit);
    }
  }

  /** Limits that are pairwise different. */
  predicate Distinct(limits: seq<real>) {
    forall i, j :: 0 <= i < j < |limits| ==> limits[i] != limits[j]
  }

  /** Selecting one limit of a collection with distinct limits gives exactly
      that limit's row: the rows of the other limits contribute nothing. */
  lemma {:induction false} CollectSelects(limits: seq<real>, xs: seq<real>,
                                          solve: (real, real) -> Option<real>, i: nat)
    requires Distinct(limits) && i < |limits|
    ensures OfLimit(Collect(limits, xs, solve), limits[i]) == RowPoints(limits[i], xs, solve)
  {
    if i == 0 {
      FirstRowSelected(limits, xs, solve);
    } else {
      var l := limits[i];
      DistinctRest(limits);
      CollectSelects(limits[1..], xs, solve, i - 1);
      assert limits[1..][i - 1] == l;
      OtherRowDropped(limits[0], l, xs, solve);
      var head, rest := RowPoints(limits[0], xs, solve), Collect(limits[1..], xs, solve);
      SelectFromRest(head, rest, l, RowPoints(l, xs, solve));
      CollectUnfold(limits, xs, solve);
    }
  }

  lemma CollectUnfold(limits: seq<real>, xs: seq<real>, solve: (real, real) -> Option<real>)
    requires |limits| > 0
    ensures Collect(limits, xs, solve) == RowPoints(limits[0], xs, solve) + Collect(limits[1..], xs, solve)
  {
  }

  /** Selecting from two parts when the first holds nothing of the limit. */
  lemma SelectFromRest(head: seq<GridPoint>, rest: seq<GridPoint>, limit: real, row: seq<GridPoint>)
    requires OfLimit(head, limit) == [] && OfLimit(rest, limit) == row
    ensures OfLimit(head + rest, limit) == row
  {
    OfLimitConcat(head, rest, limit);
    assert [] + row == row;
  }

  lemma FirstRowSelected(limits: seq<real>, xs: seq<real>, solve: (real, real) -> Option<real>)
    requires Distinct(limits) && |limits| > 0
    ensures OfLimit(Collect(limits, xs, solve), limits[0]) == RowPoints(limits[0], xs, solve)
  {
    var head := RowPoints(limits[0], xs, solve);
    var tail := Collect(limits[1..], xs, solve);
    CollectUnfold(limits, xs, solve);
    OfLimitConcat(head, tail, limits[0]);
    OfLimitKeepsAll(head, limits[0]);
    FirstNotInRest(limits);
    AbsentLimitDropped(limits[1..], xs, solve, limits[0]);
    assert head + [] == head;
  }

  lemma FirstNotInRest(limits: seq<real>)
    requires Distinct(limits) && |limits| > 0
    ensures limits[0] !in limits[1..]
  {
    forall k | 0 <= k < |limits| - 1
      ensures limits[1..][k] != limits[0]
    {
      assert limits[1..][k] == limits[k + 1];
    }
  }

  lemma DistinctRest(limits: seq<real>)
    requires Distinct(limits) && |limits| > 0
    ensures Distinct(limits[1..])
  {
    forall i, j | 0 <= i < j < |limits| - 1
      ensures limits[1..][i] != limits[1..][j]
    {
      assert limits[1..][i] == limits[i + 1] && limits[1..][j] == limits[j + 1];
    }
  }

  lemma OtherRowDropped(limit: real, other: real, xs: seq<real>, solve: (real, real) -> Option<real>)
    requires limit != other
    ensures OfLimit(RowPoints(limit, xs, solve), other) == []
  {
  }

  lemma AbsentLimitDropped(limits: seq<real>, xs: seq<real>, solve: (real, real) -> Option<real>, limit: real)
    requires limit !in limits
    ensures OfLimit(Collect(limits, xs, solve), limit) == []
  {
    var points := Collect(limits, xs, solve);
    assert forall k :: 0 <= k < |points| ==> points[k].limit in limits;
  }

  /** No search of the grid found a root. */
  predicate NoneFound(limits: seq<real>, xs: seq<real>, solve: (real, real) -> Option<real>) {
    forall l, x :: l in limits && x in xs ==> solve(l, x).None?
  }

  /** The collection is empty exactly when no search found a root; the data
      frame built from it then has no columns at all. */
  lemma CollectEmpty(limits: seq<real>, xs: seq<real>, solve: (real, real) -> Option<real>)
    ensures Collect(limits, xs, solve) == [] <==> NoneFound(limits, xs, solve)
  {
    var points := Collect(limits, xs, solve);
    if !NoneFound(limits, xs, solve) {
      var l, x :| l in limits && x in xs && solve(l, x).Some?;
      assert GridPoint(x, solve(l, x).value, l) in points;
    }
    if |points| > 0 {
      var p := points[0];
      assert p in points;
      assert p.limit in limits && p.x in xs && solve(p.limit, p.x).Some?;
    }
  }

  // ---------------------------------------------------------------------
  // Exceptions that escape the searches

  /** A root search as the charts call it: `Success(Some(t))` is a root at
      `t`, `Success(None)` a search that raised `ValueError` and is skipped,
      and `Failure(e)` any other exception `e`, which the loop does not
      catch. */
  type Search = (real, real) -> Result<Option<real>>

  /** The roots the loop records: a skipped search is `None`. Only read
      when no search raised an uncaught exception. */
  function Found(solve: Search): (r: (real, real) -> Option<real>)
    ensures forall l, x :: r(l, x).Some? <==> solve(l, x).Success? && solve(l, x).value.Some?
    ensures forall l, x :: solve(l, x).Success? ==> r(l, x) == solve(l, x).value
  {
    (l, x) => if solve(l, x).Success? then solve(l, x).value else None
  }

  /** The first uncaught exception among the searches of `limit` at
      `xs[k..]`, in axis order. */
  function RowEscapedFrom(limit: real, xs: seq<real>, solve: Search, k: nat): (r: Option<Error>)
    requires k <= |xs|
    ensures r.None? <==> forall j :: k <= j < |xs| ==> solve(limit, xs[j]).Success?
    ensures r.Some? ==>
      exists j :: k <= j < |xs| && solve(limit, xs[j]) == Failure(r.value)
                  && forall j' :: k <= j' < j ==> solve(limit, xs[j']).Success?
    decreases |xs| - k
  {
    if k == |xs| then None
    else match solve(limit, xs[k])
      case Failure(e) => Some(e)
      case Success(_) => RowEscapedFrom(limit, xs, solve, k + 1)
  }

  /** The first uncaught exception among the searches of one limit. */
  function RowEscaped(limit: real, xs: seq<real>, solve: Search): (r: Option<Error>)
    ensures r.None? <==> forall j :: 0 <= j < |xs| ==> solve(limit, xs[j]).Success?
    ensures r.Some? ==>
      exists j :: 0 <= j < |xs| && solve(limit, xs[j]) == Failure(r.value)
                  && forall j' :: 0 <= j' < j ==> solve(limit, xs[j']).Success?
  {
    RowEscapedFrom(limit, xs, solve, 0)
  }

  /** The first uncaught exception over the rows of `limits[i..]`. */
  function EscapedFrom(limits: seq<real>, xs: seq<real>, solve: Search, i: nat): (r: Option<Error>)
    requires i <= |limits|
    ensures r.None? <==> forall i' :: i <= i' < |limits| ==> RowEscaped(limits[i'], xs, solve).None?
    ensures r.Some? ==> exists i' :: i <= i' < |limits| && RowEscaped(limits[i'], xs, solve) == r
    decreases |limits| - i
  {
    if i == |limits| then None
    else match RowEscaped(limits[i], xs, solve)
      case Some(e) => Some(e)
      case None => EscapedFrom(limits, xs, solve, i + 1)
  }

  /** The exception that aborts the loops of a chart, if any: the first
      search, in limit-major order, that raised anything but `ValueError`.
      None escapes exactly when every search returned or was skipped. */
  function Escaped(limits: seq<real>, xs: seq<real>, solve: Search): (r: Option<Error>)
    ensures r.None? <==> forall i, j :: 0 <= i < |limits| && 0 <= j < |xs| ==> solve(limits[i], xs[j]).Success?
    ensures r.Some? ==> exists i :: 0 <= i < |limits| && RowEscaped(limits[i], xs, solve) == r
  {
    EscapedFrom(limits, xs, solve, 0)
  }

  /** The escaping exception is that of the first limit whose row raised:
      every earlier row ran to the end. */
  lemma {:induction false} EscapedFromIsFirst(limits: seq<real>, xs: seq<real>, solve: Search, i: nat, k: nat)
    requires i <= k < |limits| && RowEscaped(limits[k], xs, solve).Some?
    requires forall i' :: i <= i' < k ==> RowEscaped(limits[i'], xs, solve).None?
    ensures EscapedFrom(limits, xs, solve, i) == RowEscaped(limits[k], xs, solve)
    decreases k - i
  {
    var row := RowEscaped(limits[i], xs, solve);
    if i < k {
      assert row.None?;
      assert EscapedFrom(limits, xs, solve, i) == EscapedFrom(limits, xs, solve, i + 1);
      EscapedFromIsFirst(limits, xs, solve, i + 1, k);
    } else {
      assert row.Some?;
    }
  }

  /** A chart's loops raise the error of the first row, in limit order,
      that raised; all rows before it ran without an uncaught exception. */
  lemma EscapedIsFirst(limits: seq<real>, xs: seq<real>, solve: Search, k: nat)
    requires k < |limits| && RowEscaped(limits[k], xs, solve).Some?
    requires forall i :: 0 <= i < k ==> RowEscaped(limits[i], xs, solve).None?
    ensures Escaped(limits, xs, solve) == RowEscaped(limits[k], xs, solve)
  {
    EscapedFromIsFirst(limits, xs, solve, 0, k);
  }

  /** Every search of the grid was skipped: none found a root and none
      raised past the loop. */
  predicate AllSkipped(limits: seq<real>, xs: seq<real>, solve: Search) {
    forall l, x :: l in limits && x in xs ==> solve(l, x) == Success(None)
  }

  /** When nothing escaped, the loop recorded no root exactly when every
      search was skipped. */
  lemma NoneFoundSkipped(limits: seq<real>, xs: seq<real>, solve: Search)
    requires Escaped(limits, xs, solve).None?
    ensures NoneFound(limits, xs, Found(solve)) <==> AllSkipped(limits, xs, solve)
  {
    forall l, x | l in limits && x in xs
      ensures solve(l, x).Success?
    {
      var i :| 0 <= i < |limits| && limits[i] == l;
      var j :| 0 <= j < |xs| && xs[j] == x;
      assert solve(limits[i], xs[j]).Success?;
    }
  }

  /** A grid whose every search was skipped raised nothing. */
  lemma SkippedNotEscaped(limits: seq<real>, xs: seq<real>, solve: Search)
    requires AllSkipped(limits, xs, solve)
    ensures Escaped(limits, xs, solve).None?
  {
    forall i, j | 0 <= i < |limits| && 0 <= j < |xs|
      ensures solve(limits[i], xs[j]).Success?
    {
      var l, x := limits[i], xs[j];
      assert l in limits && x in xs;
      assert solve(l, x) == Success(None);
    }
  }

  /** A chart's loops raise, or leave an empty frame, exactly when a search
      raised past them or every search was skipped. */
  lemma FrameEmpty(limits: seq<real>, xs: seq<real>, solve: Search)
    ensures Escaped(limits, xs, solve).Some? || Collect(limits, xs, Found(solve)) == []
       <==> Escaped(limits, xs, solve).Some? || AllSkipped(limits, xs, solve)
  {
    if AllSkipped(limits, xs, solve) {
      SkippedNotEscaped(limits, xs, solve);
    }
    if Escaped(limits, xs, solve).None? {
      NoneFoundSkipped(limits, xs, solve);
      CollectEmpty(limits, xs, Found(solve));
    }
  }

  // ---------------------------------------------------------------------
  // The temperature–humidity chart (`t_rh_pmv`)

  /** The PMV limits of the bands: six for the EN/ISO model, the ASHRAE pair
      for any other model string. */
  function TRhLimits(model: string): (r: seq<real>)
    ensures model == "iso" ==> |r| == 6
    ensures model != "iso" ==> r == [-0.5, 0.5]
    ensures forall i :: 0 <= i < |r| - 1 ==> r[i] < r[i + 1]
  {
    if model == "iso" then [-0.7, -0.5, -0.2, 0.2, 0.5, 0.7] else [-0.5, 0.5]
  }

  /** One fill colour per band. */
  function TRhColours(model: string): (r: seq<string>)
    ensures |r| == |TRhLimits(model)| - 1
  {
    if model == "iso" then
      ["rgba(168,204,162,0.9)", "rgba(114,174,106,0.9)", "rgba(78,156,71,0.9)",
       "rgba(114,174,106,0.9)", "rgba(168,204,162,0.9)"]
    else ["rgba(59, 189, 237, 0.7)"]
  }

  lemma TRhLimitsDistinct(model: string)
    ensures Distinct(TRhLimits(model))
  {
    AscendingIsDistinct(TRhLimits(model));
  }

  lemma AscendingIsDistinct(limits: seq<real>)
    requires forall i :: 0 <= i < |limits| - 1 ==> limits[i] < limits[i + 1]
    ensures Distinct(limits)
  {
    forall i, j | 0 <= i < j < |limits|
      ensures limits[i] < limits[j]
    {
      var k := i;
      while k < j
        invariant i <= k <= j
        invariant limits[i] <= limits[k]
        invariant k > i ==> limits[i] < limits[k]
      {
        k := k + 1;
      }
    }
  }

  /** A band: the trace of its lower limit, the trace of its upper limit
      (filled to the previous trace) and its colour. */
  datatype Band = Band(lower: seq<GridPoint>, upper: seq<GridPoint>, colour: string)

  /** The bands of the chart: band `i` lies between limits `i` and `i + 1`,
      each trace being the collected points of its limit. `solve(limit, rh)`
      is `brentq` of PMV minus the limit over [10, 120]; an exception other
      than `ValueError` escapes the loops and aborts the chart. When no
      search found a root the data frame has no `pmv_limit` column, and
      selecting on it raises `KeyError`. */
  function TRhBands(model: string, solve: Search): (r: Result<seq<Band>>)
    ensures Escaped(TRhLimits(model), RhValues(), solve).Some? ==>
      r == Failure(Escaped(TRhLimits(model), RhValues(), solve).value)
    ensures Escaped(TRhLimits(model), RhValues(), solve).None? && r.Failure? ==> r.error == MissingKey
    ensures r.Success? ==> |r.value| == |TRhLimits(model)| - 1
    ensures r.Success? ==> forall i :: 0 <= i < |r.value| ==> r.value[i].colour == TRhColours(model)[i]
  {
    var limits := TRhLimits(model);
    var colours := TRhColours(model);
    match Escaped(limits, RhValues(), solve)
    case Some(e) => Failure(e)
    case None =>
      var df := Collect(limits, RhValues(), Found(solve));
      if df == [] then Failure(MissingKey) else Success(BandsOf(df, limits, colours))
  }

  /** One band per neighbouring pair of limits, each trace selected from
      the data frame by its limit. */
  function BandsOf(df: seq<GridPoint>, limits: seq<real>, colours: seq<string>): (r: seq<Band>)
    requires |colours| == |limits| - 1
    ensures |r| == |colours|
    ensures forall i :: 0 <= i < |r| ==> r[i] == BandAt(df, limits, colours, i)
  {
    seq(|colours|, i requires 0 <= i < |colours| => BandAt(df, limits, colours, i))
  }

  /** Band `i`: between the traces of limits `i` and `i + 1`. */
  function BandAt(df: seq<GridPoint>, limits: seq<real>, colours: seq<string>, i: nat): Band
    requires i < |colours| == |limits| - 1
  {
    Band(OfLimit(df, limits[i]), OfLimit(df, limits[i + 1]), colours[i])
  }

  /** The bands fail exactly when a search raised past the loops or every
      search was skipped; otherwise band `i` pairs the row of limit `i` with
      the row of limit `i + 1`, and a point is on a trace iff the search at
      that humidity found it. */
  lemma TRhBandPairs(model: string, solve: Search, i: nat)
    requires i < |TRhLimits(model)| - 1
    ensures TRhBands(model, solve).Failure? <==>
      Escaped(TRhLimits(model), RhValues(), solve).Some? || AllSkipped(TRhLimits(model), RhValues(), solve)
    ensures TRhBands(model, solve).Success? ==>
      && TRhBands(model, solve).value[i].lower == RowPoints(TRhLimits(model)[i], RhValues(), Found(solve))
      && TRhBands(model, solve).value[i].upper == RowPoints(TRhLimits(model)[i + 1], RhValues(), Found(solve))
  {
    FrameEmpty(TRhLimits(model), RhValues(), solve);
    if TRhBands(model, solve).Success? {
      TRhBandRows(model, solve, i);
    }
  }

  lemma TRhBandRows(model: string, solve: Search, i: nat)
    requires i < |TRhLimits(model)| - 1 && TRhBands(model, solve).Success?
    ensures TRhBands(model, solve).value[i].lower == RowPoints(TRhLimits(model)[i], RhValues(), Found(solve))
    ensures TRhBands(model, solve).value[i].upper == RowPoints(TRhLimits(model)[i + 1], RhValues(), Found(solve))
  {
    var limits, colours := TRhLimits(model), TRhColours(model);
    var df := Collect(limits, RhValues(), Found(solve));
    TRhLimitsDistinct(model);
    assert TRhBands(model, solve) == Success(BandsOf(df, limits, colours));
    assert TRhBands(model, solve).value[i] == BandAt(df, limits, colours, i);
    CollectSelects(limits, RhValues(), Found(solve), i);
    CollectSelects(limits, RhValues(), Found(solve), i + 1);
  }

  /** The colour of the comparison band. */
  const CompareColour: string := "rgba(30,70,100,0.5)"

  /** The comparison band of the ASHRAE chart in Compare mode, between the
      rows of the two ASHRAE limits found for the second input
      (`solve2`); no band otherwise. Like the main bands, an exception
      other than `ValueError` in a search escapes, and an empty second data
      frame raises `KeyError`. */
  function TRhCompareBand(model: string, compare: bool, solve2: Search): (r: Result<Option<Band>>)
    ensures model == "ashrae" && compare && Escaped([-0.5, 0.5], RhValues(), solve2).Some? ==>
      r == Failure(Escaped([-0.5, 0.5], RhValues(), solve2).value)
    ensures Escaped([-0.5, 0.5], RhValues(), solve2).None? && r.Failure? ==> r.error == MissingKey
    ensures !(model == "ashrae" && compare) ==> r == Success(None)
    ensures model == "ashrae" && compare && r.Success? ==> r.value.Some? && r.value.value.colour == CompareColour
  {
    if model == "ashrae" && compare then
      var limits := TRhLimits(model);
      match Escaped(limits, RhValues(), solve2)
      case Some(e) => Failure(e)
      case None =>
        var df := Collect(limits, RhValues(), Found(solve2));
        if df == [] then Failure(MissingKey)
        else Success(Some(Band(OfLimit(df, limits[0]), OfLimit(df, limits[1]), CompareColour)))
    else Success(None)
  }

  /** The comparison band exists only for the ASHRAE chart in Compare mode,
      fails exactly when a search for the second input raised past the
      loops or every one was skipped, and lies between the second input's
      rows of the two ASHRAE limits. */
  lemma TRhCompareBandRows(model: string, compare: bool, solve2: Search)
    ensures var r := TRhCompareBand(model, compare, solve2);
      && (r.Failure? <==>
            && model == "ashrae" && compare
            && (Escaped([-0.5, 0.5], RhValues(), solve2).Some? || AllSkipped([-0.5, 0.5], RhValues(), solve2)))
      && (r.Success? && r.value.Some? ==>
            && r.value.value.lower == RowPoints(-0.5, RhValues(), Found(solve2))
            && r.value.value.upper == RowPoints(0.5, RhValues(), Found(solve2)))
  {
    var limits := TRhLimits("ashrae");
    FrameEmpty(limits, RhValues(), solve2);
    AscendingIsDistinct(limits);
    CollectSelects(limits, RhValues(), Found(solve2), 0);
    CollectSelects(limits, RhValues(), Found(solve2), 1);
  }

  /** The zones of `t_rh_pmv`: the bands of the first input, then the
      comparison band; the first failure raises. */
  function TRhZones(model: string, compare: bool, solve: Search, solve2: Search): (r: Result<(seq<Band>, Option<Band>)>)
    ensures r.Success? <==> TRhBands(model, solve).Success? && TRhCompareBand(model, compare, solve2).Success?
    ensures r.Success? ==> r.value == (TRhBands(model, solve).value, TRhCompareBand(model, compare, solve2).value)
    ensures TRhBands(model, solve).Failure? ==> r == Failure(TRhBands(model, solve).error)
    ensures TRhBands(model, solve).Success? && r.Failure? ==> r == Failure(TRhCompareBand(model, compare, solve2).error)
  {
    match TRhBands(model, solve)
    case Failure(err) => Failure(err)
    case Success(bands) =>
      match TRhCompareBand(model, compare, solve2)
      case Failure(err) => Failure(err)
      case Success(band) => Success((bands, band))
  }

  // ---------------------------------------------------------------------
  // The air speed–temperature chart (`speed_temp_pmv`)

  function SpeedLimits(): seq<real> {
    [-0.5, 0.5]
  }

  /** The record of a found point: as computed in SI, or with the speed in
      ft/s and the temperature in °F. */
  function SpeedRecord(units: Units, p: GridPoint): (r: GridPoint)
    ensures r.limit == p.limit
    ensures units == SI ==> r == p
    ensures units == IP ==> r.x / 3.28084 == p.x && (r.temp - 32.0) * 5.0 / 9.0 == p.temp
  {
    if units == SI then p
    else GridPoint(p.x * 3.28084, p.temp * (9.0 / 5.0) + 32.0, p.limit)
  }

  function SpeedRecords(units: Units, points: seq<GridPoint>): (r: seq<GridPoint>)
    ensures |r| == |points|
    ensures forall k :: 0 <= k < |points| ==> r[k] == SpeedRecord(units, points[k])
  {
    seq(|points|, k requires 0 <= k < |points| => SpeedRecord(units, points[k]))
  }

  /** The data frame of the chart, ready for selection by limit.
      `solve(limit, vr)` is `brentq` of PMV minus the limit over [10, 40],
      evaluated in SI; an exception other than `ValueError` escapes the
      loops and aborts the chart. A frame without rows has no `pmv_limit`
      column, so selecting the first trace raises `KeyError`. */
  function SpeedPoints(units: Units, solve: Search): (r: Result<seq<GridPoint>>)
    ensures Escaped(SpeedLimits(), SpeedValues(), solve).Some? ==>
      r == Failure(Escaped(SpeedLimits(), SpeedValues(), solve).value)
    ensures Escaped(SpeedLimits(), SpeedValues(), solve).None? && r.Failure? ==> r.error == MissingKey
    ensures r.Success? ==> r.value != [] && forall p :: p in r.value ==> p.limit in SpeedLimits()
  {
    match Escaped(SpeedLimits(), SpeedValues(), solve)
    case Some(e) => Failure(e)
    case None =>
      var df := SpeedRecords(units, Collect(SpeedLimits(), SpeedValues(), Found(solve)));
      if df == [] then Failure(MissingKey) else Success(df)
  }

  lemma RecordsConcat(units: Units, a: seq<GridPoint>, b: seq<GridPoint>)
    ensures SpeedRecords(units, a + b) == SpeedRecords(units, a) + SpeedRecords(units, b)
  {
    assert forall k :: 0 <= k < |a| + |b| ==>
      SpeedRecords(units, a + b)[k] == (SpeedRecords(units, a) + SpeedRecords(units, b))[k];
  }

  /** Converting the records keeps their limits, so selecting a limit and
      converting commute. */
  lemma {:induction false} OfLimitRecords(units: Units, points: seq<GridPoint>, limit: real)
    ensures OfLimit(SpeedRecords(units, points), limit) == SpeedRecords(units, OfLimit(points, limit))
  {
    if |points| > 0 {
      var records := SpeedRecords(units, points);
      var first := if points[0].limit == limit then [points[0]] else [];
      OfLimitRecords(units, points[1..], limit);
      RecordsCons(units, points);
      OfLimitCons(records, limit);
      OfLimitCons(points, limit);
      RecordsConcat(units, first, OfLimit(points[1..], limit));
      assert SpeedRecords(units, first) == (if records[0].limit == limit then [records[0]] else []);
    }
  }

  lemma OfLimitCons(points: seq<GridPoint>, limit: real)
    requires |points| > 0
    ensures OfLimit(points, limit)
         == (if points[0].limit == limit then [points[0]] else []) + OfLimit(points[1..], limit)
  {
  }

  lemma RecordsCons(units: Units, points: seq<GridPoint>)
    requires |points| > 0
    ensures SpeedRecords(units, points)[0] == SpeedRecord(units, points[0])
    ensures SpeedRecords(units, points)[1..] == SpeedRecords(units, points[1..])
  {
  }

  /** The chart fails exactly when a search raised past the loops or every
      search was skipped; otherwise each of the two traces is the row of its
      limit, converted for display, and in SI a point is on a trace iff the
      search at that speed found it. */
  lemma SpeedTraces(units: Units, solve: Search, i: nat)
    requires i < 2
    ensures SpeedPoints(units, solve).Failure? <==>
      Escaped(SpeedLimits(), SpeedValues(), solve).Some? || AllSkipped(SpeedLimits(), SpeedValues(), solve)
    ensures SpeedPoints(units, solve).Success? ==>
      OfLimit(SpeedPoints(units, solve).value, SpeedLimits()[i])
        == SpeedRecords(units, RowPoints(SpeedLimits()[i], SpeedValues(), Found(solve)))
  {
    FrameEmpty(SpeedLimits(), SpeedValues(), solve);
    if SpeedPoints(units, solve).Success? {
      SpeedTraceRow(units, solve, i);
    }
  }

  lemma SpeedTraceRow(units: Units, solve: Search, i: nat)
    requires i < 2 && SpeedPoints(units, solve).Success?
    ensures OfLimit(SpeedPoints(units, solve).value, SpeedLimits()[i])
         == SpeedRecords(units, RowPoints(SpeedLimits()[i], SpeedValues(), Found(solve)))
  {
    var limits := SpeedLimits();
    AscendingIsDistinct(limits);
    CollectSelects(limits, SpeedValues(), Found(solve), i);
    OfLimitRecords(units, Collect(limits, SpeedValues(), Found(solve)), limits[i]);
  }

  // ---------------------------------------------------------------------
  // The psychrometric chart (`psy_pmv`)

  /** The number of resampled points per boundary curve. */
  const CurvePoints: nat := 50

  /** The PMV targets: the ASHRAE pair, or the six EN/ISO limits. */
  function PsyTargets(model: string): (r: seq<real>)
    ensures model == "ASHRAE" ==> r == [-0.5, 0.5]
    ensures model != "ASHRAE" ==> |r| == 6
  {
    if model == "ASHRAE" then [-0.5, 0.5] else [-0.7, -0.5, -0.2, 0.2, 0.5, 0.7]
  }

  /** The targets are symmetric about zero: the k-th from the start is the
      negative of the k-th from the end. */
  lemma PsyTargetsSymmetric(model: string)
    ensures forall k :: 0 <= k < |PsyTargets(model)| ==>
      PsyTargets(model)[k] == -PsyTargets(model)[|PsyTargets(model)| - 1 - k]
  {
  }

  /** Which rows of the target table bound each polygon: ASHRAE has one band,
      EN/ISO the Category III, II and I bands. */
  function PsyBandPairs(model: string): (r: seq<(nat, nat)>)
    ensures |r| == (if model == "ASHRAE" then 1 else 3)
    ensures forall b :: 0 <= b < |r| ==> r[b].0 < r[b].1 < |PsyTargets(model)|
  {
    if model == "ASHRAE" then [(0, 1)] else [(0, 5), (1, 4), (2, 3)]
  }

  /** Every band pairs a target with its negative, the lower one first, and
      the bands are nested: each lies inside the previous one. */
  lemma PsyBandsPairOpposites(model: string)
    ensures forall b :: 0 <= b < |PsyBandPairs(model)| ==>
      var (lo, hi) := PsyBandPairs(model)[b];
      && lo < hi < |PsyTargets(model)|
      && lo + hi == |PsyTargets(model)| - 1
      && PsyTargets(model)[hi] == -PsyTargets(model)[lo]
      && PsyTargets(model)[lo] < 0.0
    ensures forall b :: 0 < b < |PsyBandPairs(model)| ==>
      PsyTargets(model)[PsyBandPairs(model)[b - 1].0] < PsyTargets(model)[PsyBandPairs(model)[b].0]
  {
    PsyTargetsSymmetric(model);
  }

  /** The temperatures of one target along the humidity axis, each found by
      `find_tdb_for_pmv` with its defaults (SI interval, tolerance 0.01, 100
      iterations); `index(rh)` is PMV at that humidity. */
  function TdbRow(index: real -> (real -> Option<real>), target: real, round2: real -> real): (r: Result<seq<real>>)
    ensures r.Success? <==> forall i :: 0 <= i < 11 ==>
      FindTdb(index(RhValues()[i]), target, SI, 0.01, 100, round2).Success?
    ensures r.Success? ==> (&& |r.value| == 11
      && forall i :: 0 <= i < 11 ==>
           FindTdb(index(RhValues()[i]), target, SI, 0.01, 100, round2) == Success(r.value[i]))
  {
    SequenceEach(RhValues(), (rh: real) => FindTdb(index(rh), target, SI, 0.01, 100, round2))
  }

  /** `tdb_array`: one row per target; the first search that raises aborts
      the chart. */
  function TdbTable(model: string, index: real -> (real -> Option<real>), round2: real -> real): (r: Result<seq<seq<real>>>)
    ensures r.Success? <==> forall j :: 0 <= j < |PsyTargets(model)| ==>
      TdbRow(index, PsyTargets(model)[j], round2).Success?
    ensures r.Success? ==> (&& |r.value| == |PsyTargets(model)|
      && forall j :: 0 <= j < |PsyTargets(model)| ==>
           TdbRow(index, PsyTargets(model)[j], round2) == Success(r.value[j]))
  {
    SequenceEach(PsyTargets(model), (target: real) => TdbRow(index, target, round2))
  }

  /** Humidity ratios in g/kg of the points (tdbs[i], rhs[i]); `hr` is
      `psy_ta_rh(...)["hr"]`. */
  function HumidityRatios(hr: (real, real) -> real, tdbs: seq<real>, rhs: seq<real>): (r: seq<real>)
    requires |tdbs| == |rhs|
    ensures |r| == |tdbs|
    ensures forall i :: 0 <= i < |r| ==> r[i] == hr(tdbs[i], rhs[i]) * 1000.0
  {
    seq(|tdbs|, i requires 0 <= i < |tdbs| => hr(tdbs[i], rhs[i]) * 1000.0)
  }

  /** Pairing the reversed upper row with the descending humidity list gives
      every temperature the humidity it was solved at: the upper ratios are
      those of the row's own points, reversed. */
  lemma UpperRowAligned(hr: (real, real) -> real, row: seq<real>)
    requires |row| == 11
    ensures HumidityRatios(hr, Reverse(row), UpperRhValues()) == Reverse(HumidityRatios(hr, row, RhValues()))
  {
    UpperRhIsReverse();
    forall i | 0 <= i < 11
      ensures HumidityRatios(hr, Reverse(row), UpperRhValues())[i] == Reverse(HumidityRatios(hr, row, RhValues()))[i]
    {
      assert Reverse(row)[i] == row[10 - i];
      assert UpperRhValues()[i] == RhValues()[10 - i];
    }
  }

  /** The temperatures as plotted: rounded °F in IP (`display`), as solved
      otherwise. */
  function Displayed(units: Units, display: real -> real, tdbs: seq<real>): (r: seq<real>)
    ensures |r| == |tdbs|
    ensures units == SI ==> r == tdbs
    ensures units == IP ==> forall i :: 0 <= i < |r| ==> r[i] == display(tdbs[i])
  {
    if units == SI then tdbs
    else seq(|tdbs|, i requires 0 <= i < |tdbs| => display(tdbs[i]))
  }

  /** The lower row as fitted: displayed temperatures against humidity
      ratios at 0, 10, ..., 100 %. */
  function LowerFitInput(hr: (real, real) -> real, display: real -> real, units: Units, row: seq<real>): (r: (seq<real>, seq<real>))
    requires |row| == 11
    ensures |r.0| == |r.1| == 11
  {
    (Displayed(units, display, row), HumidityRatios(hr, row, RhValues()))
  }

  /** The upper row as fitted: reversed, paired with 100, 90, ..., 0 %. */
  function UpperFitInput(hr: (real, real) -> real, display: real -> real, units: Units, row: seq<real>): (r: (seq<real>, seq<real>))
    requires |row| == 11
    ensures |r.0| == |r.1| == 11
  {
    (Displayed(units, display, Reverse(row)), HumidityRatios(hr, Reverse(row), UpperRhValues()))
  }

  /** One band of the chart: fit both rows and join the two fitted curves
      into one outline of `2 * CurvePoints` vertices. */
  function PsyOutline(polyfit: (seq<real>, seq<real>) -> Result<Quadratic>, hr: (real, real) -> real,
                      display: real -> real, units: Units, lowerRow: seq<real>, upperRow: seq<real>): (r: Result<Curve>)
    requires |lowerRow| == 11 && |upperRow| == 11
    ensures var lp := LowerFitInput(hr, display, units, lowerRow);
            var up := UpperFitInput(hr, display, units, upperRow);
      r.Success? <==> polyfit(lp.0, lp.1).Success? && polyfit(up.0, up.1).Success?
    ensures r.Success? ==> |r.value.xs| == 2 * CurvePoints && |r.value.ys| == 2 * CurvePoints
  {
    var lp := LowerFitInput(hr, display, units, lowerRow);
    var up := UpperFitInput(hr, display, units, upperRow);
    match CurveFit(polyfit, lp.0, lp.1, CurvePoints)
    case Failure(err) => Failure(err)
    case Success(lower) =>
      match CurveFit(polyfit, up.0, up.1, CurvePoints)
      case Failure(err) => Failure(err)
      case Success(upper) => Success(Join(lower, upper))
  }

  /** The first half of the outline lies on the lower row's quadratic and
      starts at its coolest temperature; the second half lies on the upper
      row's quadratic and ends at its coolest temperature. */
  lemma PsyOutlineOnCurves(polyfit: (seq<real>, seq<real>) -> Result<Quadratic>, hr: (real, real) -> real,
                           display: real -> real, units: Units, lowerRow: seq<real>, upperRow: seq<real>)
    requires |lowerRow| == 11 && |upperRow| == 11
    ensures PsyOutline(polyfit, hr, display, units, lowerRow, upperRow).Success? ==>
            var r := PsyOutline(polyfit, hr, display, units, lowerRow, upperRow).value;
            var lp := LowerFitInput(hr, display, units, lowerRow);
            var up := UpperFitInput(hr, display, units, upperRow);
      && (forall k :: 0 <= k < CurvePoints ==> r.ys[k] == Eval(polyfit(lp.0, lp.1).value, r.xs[k]))
      && (forall k :: CurvePoints <= k < 2 * CurvePoints ==> r.ys[k] == Eval(polyfit(up.0, up.1).value, r.xs[k]))
      && r.xs[0] == MinOf(lp.0).value
      && r.xs[2 * CurvePoints - 1] == MinOf(up.0).value
  {
    if PsyOutline(polyfit, hr, display, units, lowerRow, upperRow).Failure? {
      return;
    }
    var lp := LowerFitInput(hr, display, units, lowerRow);
    var up := UpperFitInput(hr, display, units, upperRow);
    var lower := CurveFit(polyfit, lp.0, lp.1, CurvePoints).value;
    var upper := CurveFit(polyfit, up.0, up.1, CurvePoints).value;
    JoinOnCurves(lower, upper, polyfit(lp.0, lp.1).value, polyfit(up.0, up.1).value);
    assert lower.xs[0] == MinOf(lp.0).value;
    assert upper.xs[0] == MinOf(up.0).value;
  }

  /** A table of one 11-value row per target. */
  predicate TableShape(table: seq<seq<real>>, model: string) {
    |table| == |PsyTargets(model)| && forall j :: 0 <= j < |table| ==> |table[j]| == 11
  }

  lemma TdbTableShape(model: string, index: real -> (real -> Option<real>), round2: real -> real)
    ensures TdbTable(model, index, round2).Success? ==> TableShape(TdbTable(model, index, round2).value, model)
  {
    if TdbTable(model, index, round2).Failure? {
      return;
    }
    var table := TdbTable(model, index, round2).value;
    forall j | 0 <= j < |table|
      ensures |table[j]| == 11
    {
      assert TdbRow(index, PsyTargets(model)[j], round2) == Success(table[j]);
    }
  }

  /** Rows `pair.0` and `pair.1` exist and hold 11 temperatures each. */
  predicate PairFits(table: seq<seq<real>>, pair: (nat, nat)) {
    pair.0 < |table| && pair.1 < |table| && |table[pair.0]| == 11 && |table[pair.1]| == 11
  }

  /** The outline of the band between rows `pair.0` and `pair.1` of the table. */
  function PairOutline(units: Units, table: seq<seq<real>>, pair: (nat, nat),
                       polyfit: (seq<real>, seq<real>) -> Result<Quadratic>, hr: (real, real) -> real,
                       display: real -> real): (r: Result<Curve>)
    requires PairFits(table, pair)
    ensures r.Success? ==> |r.value.xs| == 2 * CurvePoints && |r.value.ys| == 2 * CurvePoints
  {
    PsyOutline(polyfit, hr, display, units, table[pair.0], table[pair.1])
  }

  /** The fit of the lower row of a band. */
  function LowerFit(units: Units, table: seq<seq<real>>, pair: (nat, nat),
                    polyfit: (seq<real>, seq<real>) -> Result<Quadratic>, hr: (real, real) -> real,
                    display: real -> real): (r: Result<Curve>)
    requires PairFits(table, pair)
    ensures r.Success? ==> |r.value.xs| == CurvePoints && |r.value.ys| == CurvePoints
  {
    var lp := LowerFitInput(hr, display, units, table[pair.0]);
    CurveFit(polyfit, lp.0, lp.1, CurvePoints)
  }

  /** The fit of the (reversed) upper row of a band. */
  function UpperFit(units: Units, table: seq<seq<real>>, pair: (nat, nat),
                    polyfit: (seq<real>, seq<real>) -> Result<Quadratic>, hr: (real, real) -> real,
                    display: real -> real): (r: Result<Curve>)
    requires PairFits(table, pair)
    ensures r.Success? ==> |r.value.xs| == CurvePoints && |r.value.ys| == CurvePoints
  {
    var up := UpperFitInput(hr, display, units, table[pair.1]);
    CurveFit(polyfit, up.0, up.1, CurvePoints)
  }

  /** The lower fit of every band, in band order. */
  function LowerFits(pairs: seq<(nat, nat)>, units: Units, table: seq<seq<real>>,
                     polyfit: (seq<real>, seq<real>) -> Result<Quadratic>, hr: (real, real) -> real,
                     display: real -> real): (r: seq<Result<Curve>>)
    requires forall b :: 0 <= b < |pairs| ==> PairFits(table, pairs[b])
    ensures |r| == |pairs|
    ensures forall b :: 0 <= b < |pairs| ==> r[b] == LowerFit(units, table, pairs[b], polyfit, hr, display)
  {
    seq(|pairs|, b requires 0 <= b < |pairs| => LowerFit(units, table, pairs[b], polyfit, hr, display))
  }

  /** The upper fit of every band, in band order. */
  function UpperFits(pairs: seq<(nat, nat)>, units: Units, table: seq<seq<real>>,
                     polyfit: (seq<real>, seq<real>) -> Result<Quadratic>, hr: (real, real) -> real,
                     display: real -> real): (r: seq<Result<Curve>>)
    requires forall b :: 0 <= b < |pairs| ==> PairFits(table, pairs[b])
    ensures |r| == |pairs|
    ensures forall b :: 0 <= b < |pairs| ==> r[b] == UpperFit(units, table, pairs[b], polyfit, hr, display)
  {
    seq(|pairs|, b requires 0 <= b < |pairs| => UpperFit(units, table, pairs[b], polyfit, hr, display))
  }

  /** The fits in the order the chart runs them: the lower row of every
      band, then the upper row of every band. */
  function FitsInOrder(pairs: seq<(nat, nat)>, units: Units, table: seq<seq<real>>,
                       polyfit: (seq<real>, seq<real>) -> Result<Quadratic>, hr: (real, real) -> real,
                       display: real -> real): (r: seq<Result<Curve>>)
    requires forall b :: 0 <= b < |pairs| ==> PairFits(table, pairs[b])
    ensures |r| == 2 * |pairs|
    ensures forall b :: 0 <= b < |pairs| ==>
      && r[b] == LowerFit(units, table, pairs[b], polyfit, hr, display)
      && r[|pairs| + b] == UpperFit(units, table, pairs[b], polyfit, hr, display)
  {
    LowerFits(pairs, units, table, polyfit, hr, display) + UpperFits(pairs, units, table, polyfit, hr, display)
  }

  /** A band's outline fails exactly when one of its two fits does, with
      the lower fit's error first, and otherwise joins the two fits. */
  lemma PairOutlineOfFits(units: Units, table: seq<seq<real>>, pair: (nat, nat),
                          polyfit: (seq<real>, seq<real>) -> Result<Quadratic>, hr: (real, real) -> real,
                          display: real -> real)
    requires PairFits(table, pair)
    ensures var lower, upper := LowerFit(units, table, pair, polyfit, hr, display), UpperFit(units, table, pair, polyfit, hr, display);
      PairOutline(units, table, pair, polyfit, hr, display)
        == if lower.Failure? then Failure(lower.error)
           else if upper.Failure? then Failure(upper.error)
           else Success(Join(lower.value, upper.value))
  {
  }

  /** One outline per band of the table. Every lower row is fitted before
      any upper row (one band for ASHRAE; the three EN bands fit lower
      III, II, I, then upper III, II, I), and the first failed fit fails
      the chart. */
  method PsyOutlines(pairs: seq<(nat, nat)>, units: Units, table: seq<seq<real>>,
                     polyfit: (seq<real>, seq<real>) -> Result<Quadratic>, hr: (real, real) -> real,
                     display: real -> real) returns (r: Result<seq<Curve>>)
    requires forall b :: 0 <= b < |pairs| ==> PairFits(table, pairs[b])
    ensures r.Success? <==> forall b :: 0 <= b < |pairs| ==>
      PairOutline(units, table, pairs[b], polyfit, hr, display).Success?
    ensures r.Success? ==> (&& |r.value| == |pairs|
      && forall b :: 0 <= b < |r.value| ==> |r.value[b].xs| == 2 * CurvePoints && |r.value[b].ys| == 2 * CurvePoints)
    ensures r.Success? ==> forall b :: 0 <= b < |pairs| ==>
      PairOutline(units, table, pairs[b], polyfit, hr, display) == Success(r.value[b])
    ensures r.Failure? ==> exists b :: 0 <= b < |pairs| &&
                                      PairOutline(units, table, pairs[b], polyfit, hr, display) == Failure(r.error)
    ensures r.Failure? ==> FailsFirstWith(FitsInOrder(pairs, units, table, polyfit, hr, display), r.error)
  {
    var fits := FitsInOrder(pairs, units, table, polyfit, hr, display);
    var all := Sequence(fits);
    if all.Failure? {
      FailedFitFailsBand(pairs, units, table, polyfit, hr, display);
      return Failure(all.error);
    }
    FittedCurves(pairs, units, table, polyfit, hr, display);
    var lowers := Sequence(LowerFits(pairs, units, table, polyfit, hr, display)).value;
    var uppers := Sequence(UpperFits(pairs, units, table, polyfit, hr, display)).value;
    OutlinesOfFits(pairs, units, table, polyfit, hr, display, lowers, uppers);
    r := Success(JoinAll(lowers, uppers));
  }

  /** The first failed fit of the chart is the error of some band's outline. */
  lemma FailedFitFailsBand(pairs: seq<(nat, nat)>, units: Units, table: seq<seq<real>>,
                           polyfit: (seq<real>, seq<real>) -> Result<Quadratic>, hr: (real, real) -> real,
                           display: real -> real)
    requires forall b :: 0 <= b < |pairs| ==> PairFits(table, pairs[b])
    ensures var all := Sequence(FitsInOrder(pairs, units, table, polyfit, hr, display));
      all.Failure? ==> exists b :: 0 <= b < |pairs| &&
                                   PairOutline(units, table, pairs[b], polyfit, hr, display) == Failure(all.error)
  {
    var lows, ups := LowerFits(pairs, units, table, polyfit, hr, display), UpperFits(pairs, units, table, polyfit, hr, display);
    if Sequence(lows + ups).Failure? {
      var b := FailingIndexOfTwo(lows, ups);
      PairOutlineOfFits(units, table, pairs[b], polyfit, hr, display);
    }
  }

  /** When every fit of the chart succeeds, so do the lower fits and the
      upper fits, band by band. */
  lemma FittedCurves(pairs: seq<(nat, nat)>, units: Units, table: seq<seq<real>>,
                     polyfit: (seq<real>, seq<real>) -> Result<Quadratic>, hr: (real, real) -> real,
                     display: real -> real)
    requires forall b :: 0 <= b < |pairs| ==> PairFits(table, pairs[b])
    requires Sequence(FitsInOrder(pairs, units, table, polyfit, hr, display)).Success?
    ensures Sequence(LowerFits(pairs, units, table, polyfit, hr, display)).Success?
    ensures Sequence(UpperFits(pairs, units, table, polyfit, hr, display)).Success?
  {
    SequenceOfTwo(LowerFits(pairs, units, table, polyfit, hr, display), UpperFits(pairs, units, table, polyfit, hr, display));
  }

  /** The outlines of the bands from their two fitted curves. */
  function JoinAll(lowers: seq<Curve>, uppers: seq<Curve>): (r: seq<Curve>)
    requires |lowers| == |uppers|
    requires forall b :: 0 <= b < |lowers| ==> |lowers[b].xs| == |lowers[b].ys| && |uppers[b].xs| == |uppers[b].ys|
    ensures |r| == |lowers|
    ensures forall b :: 0 <= b < |r| ==> r[b] == Join(lowers[b], uppers[b])
  {
    seq(|lowers|, b requires 0 <= b < |lowers| => Join(lowers[b], uppers[b]))
  }

  /** When every fit succeeds, band `b`'s outline joins its two fits. */
  lemma OutlinesOfFits(pairs: seq<(nat, nat)>, units: Units, table: seq<seq<real>>,
                       polyfit: (seq<real>, seq<real>) -> Result<Quadratic>, hr: (real, real) -> real,
                       display: real -> real, lowers: seq<Curve>, uppers: seq<Curve>)
    requires forall b :: 0 <= b < |pairs| ==> PairFits(table, pairs[b])
    requires |lowers| == |uppers| == |pairs|
    requires forall b :: 0 <= b < |pairs| ==> LowerFit(units, table, pairs[b], polyfit, hr, display) == Success(lowers[b])
    requires forall b :: 0 <= b < |pairs| ==> UpperFit(units, table, pairs[b], polyfit, hr, display) == Success(uppers[b])
    ensures forall b :: 0 <= b < |pairs| ==> |lowers[b].xs| == |lowers[b].ys| && |uppers[b].xs| == |uppers[b].ys|
    ensures forall b :: 0 <= b < |pairs| ==>
      PairOutline(units, table, pairs[b], polyfit, hr, display) == Success(JoinAll(lowers, uppers)[b])
  {
    forall b | 0 <= b < |pairs|
      ensures PairOutline(units, table, pairs[b], polyfit, hr, display) == Success(JoinAll(lowers, uppers)[b])
    {
      PairOutlineOfFits(units, table, pairs[b], polyfit, hr, display);
    }
  }

  /** When band `k`'s lower fit is the first lower fit to fail, its error
      is band `k`'s outline error and the first failure of the chart. */
  lemma LowerFitFailsFirst(pairs: seq<(nat, nat)>, units: Units, table: seq<seq<real>>,
                           polyfit: (seq<real>, seq<real>) -> Result<Quadratic>, hr: (real, real) -> real,
                           display: real -> real, k: nat)
    requires forall b :: 0 <= b < |pairs| ==> PairFits(table, pairs[b])
    requires k < |pairs| && LowerFit(units, table, pairs[k], polyfit, hr, display).Failure?
    requires forall j :: 0 <= j < k ==> LowerFit(units, table, pairs[j], polyfit, hr, display).Success?
    ensures var err := LowerFit(units, table, pairs[k], polyfit, hr, display).error;
      && PairOutline(units, table, pairs[k], polyfit, hr, display) == Failure(err)
      && FailsFirstWith(FitsInOrder(pairs, units, table, polyfit, hr, display), err)
  {
    var fits := FitsInOrder(pairs, units, table, polyfit, hr, display);
    PairOutlineOfFits(units, table, pairs[k], polyfit, hr, display);
    assert fits[k] == LowerFit(units, table, pairs[k], polyfit, hr, display);
    assert forall j :: 0 <= j < k ==> fits[j].Success?;
  }

  /** When every lower fit succeeded and band `k`'s upper fit is the first
      upper fit to fail, its error is band `k`'s outline error and the
      first failure of the chart. */
  lemma UpperFitFailsFirst(pairs: seq<(nat, nat)>, units: Units, table: seq<seq<real>>,
                           polyfit: (seq<real>, seq<real>) -> Result<Quadratic>, hr: (real, real) -> real,
                           display: real -> real, k: nat)
    requires forall b :: 0 <= b < |pairs| ==> PairFits(table, pairs[b])
    requires forall b :: 0 <= b < |pairs| ==> LowerFit(units, table, pairs[b], polyfit, hr, display).Success?
    requires k < |pairs| && UpperFit(units, table, pairs[k], polyfit, hr, display).Failure?
    requires forall j :: 0 <= j < k ==> UpperFit(units, table, pairs[j], polyfit, hr, display).Success?
    ensures var err := UpperFit(units, table, pairs[k], polyfit, hr, display).error;
      && PairOutline(units, table, pairs[k], polyfit, hr, display) == Failure(err)
      && FailsFirstWith(FitsInOrder(pairs, units, table, polyfit, hr, display), err)
  {
    var fits := FitsInOrder(pairs, units, table, polyfit, hr, display);
    PairOutlineOfFits(units, table, pairs[k], polyfit, hr, display);
    assert fits[|pairs| + k] == UpperFit(units, table, pairs[k], polyfit, hr, display);
    forall j | 0 <= j < |pairs| + k
      ensures fits[j].Success?
    {
      if j >= |pairs| {
        assert fits[j] == UpperFit(units, table, pairs[j - |pairs|], polyfit, hr, display);
      }
    }
  }

  /** With a table of the model's shape, `r` is the chart's outcome: it
      succeeds iff the outline of every band succeeds, outline `b` is the
      band-`b` outline of the table, and a failure is the error of a band's
      outline and the first failed fit, lower rows before upper rows. */
  ghost predicate BandsOutlined(model: string, units: Units, table: seq<seq<real>>,
                                polyfit: (seq<real>, seq<real>) -> Result<Quadratic>, hr: (real, real) -> real,
                                display: real -> real, r: Result<seq<Curve>>)
  {
    var pairs := PsyBandPairs(model);
    TableShape(table, model) ==>
      && (forall b :: 0 <= b < |pairs| ==> PairFits(table, pairs[b]))
      && (r.Success? <==> forall b :: 0 <= b < |pairs| ==>
            PairOutline(units, table, pairs[b], polyfit, hr, display).Success?)
      && (r.Success? ==> |r.value| == |pairs| && forall b :: 0 <= b < |pairs| ==>
            PairOutline(units, table, pairs[b], polyfit, hr, display) == Success(r.value[b]))
      && (r.Failure? ==> exists b :: 0 <= b < |pairs| &&
                                    PairOutline(units, table, pairs[b], polyfit, hr, display) == Failure(r.error))
      && (r.Failure? ==> FailsFirstWith(FitsInOrder(pairs, units, table, polyfit, hr, display), r.error))
  }

  /** The targets bounding band `b`: a negative target `-t` and `t`, with
      `t` shrinking towards zero band after band. */
  lemma PsyBandTargets(model: string, b: nat)
    requires b < |PsyBandPairs(model)|
    ensures var pair := PsyBandPairs(model)[b];
      && PsyTargets(model)[pair.1] > 0.0
      && PsyTargets(model)[pair.0] == -PsyTargets(model)[pair.1]
      && (b > 0 ==> PsyTargets(model)[pair.1] < PsyTargets(model)[PsyBandPairs(model)[b - 1].1])
  {
    if model != "ASHRAE" {
      assert PsyBandPairs(model) == [(0, 5), (1, 4), (2, 3)];
      assert PsyTargets(model) == [-0.7, -0.5, -0.2, 0.2, 0.5, 0.7];
    }
  }

  /** In a successful table, band `b` lies between the rows found for its
      two targets, which `PsyBandTargets` shows are `-t` and `t`. */
  lemma PsyBandRows(model: string, index: real -> (real -> Option<real>), round2: real -> real, b: nat)
    requires b < |PsyBandPairs(model)|
    ensures TdbTable(model, index, round2).Success? ==>
      var table, pair := TdbTable(model, index, round2).value, PsyBandPairs(model)[b];
      && TdbRow(index, PsyTargets(model)[pair.0], round2) == Success(table[pair.0])
      && TdbRow(index, PsyTargets(model)[pair.1], round2) == Success(table[pair.1])
  {
    var pair := PsyBandPairs(model)[b];
    TableRow(model, index, round2, pair.0);
    TableRow(model, index, round2, pair.1);
  }

  lemma TableRow(model: string, index: real -> (real -> Option<real>), round2: real -> real, j: nat)
    requires j < |PsyTargets(model)|
    ensures TdbTable(model, index, round2).Success? ==>
      TdbRow(index, PsyTargets(model)[j], round2) == Success(TdbTable(model, index, round2).value[j])
  {
  }

  /** `psy_pmv`: the table of boundary temperatures, then one outline per
      band; a failed search or fit fails the chart. */
  method PsyPolygons(model: string, units: Units, index: real -> (real -> Option<real>), round2: real -> real,
                     polyfit: (seq<real>, seq<real>) -> Result<Quadratic>, hr: (real, real) -> real,
                     display: real -> real) returns (r: Result<seq<Curve>>)
    ensures TdbTable(model, index, round2).Failure? ==> r == Failure(TdbTable(model, index, round2).error)
    ensures r.Success? ==> TdbTable(model, index, round2).Success?
    ensures r.Success? ==> (&& |r.value| == |PsyBandPairs(model)|
      && forall b :: 0 <= b < |r.value| ==> |r.value[b].xs| == 2 * CurvePoints && |r.value[b].ys| == 2 * CurvePoints)
    ensures TdbTable(model, index, round2).Success? ==> BandsOutlined(model, units, TdbTable(model, index, round2).value, polyfit, hr, display, r)
  {
    var table := TdbTable(model, index, round2);
    if table.Failure? {
      return Failure(table.error);
    }
    TdbTableShape(model, index, round2);
    PairsFit(model, table.value);
    r := PsyOutlines(PsyBandPairs(model), units, table.value, polyfit, hr, display);
  }

  /** A table of the model's shape holds both rows of every band. */
  lemma PairsFit(model: string, table: seq<seq<real>>)
    requires TableShape(table, model)
    ensures forall b :: 0 <= b < |PsyBandPairs(model)| ==> PairFits(table, PsyBandPairs(model)[b])
  {
  }

  // ---------------------------------------------------------------------
  // The adaptive chart (`adaptive_chart`)

  /** The running-mean outdoor temperatures at the two ends of the x-axis. */
  function AdaptiveXValues(units: Units, model: string): (r: (real, real))
    ensures r.0 < r.1
    ensures units == IP ==> r == (50.0, 92.3)
    ensures units == SI ==> r.0 == 10.0 && (r.1 == 30.0 <==> model == "iso")
  {
    if units == IP then (50.0, 92.3)
    else if model == "iso" then (10.0, 30.0) else (10.0, 33.5)
  }

  /** The comfort categories: EN 16798's three, or ASHRAE 55's two
      acceptability levels. */
  function AdaptiveCategories(model: string): (r: seq<string>)
    ensures |r| == (if model == "iso" then 3 else 2)
  {
    if model == "iso" then ["cat_iii", "cat_ii", "cat_i"] else ["80", "90"]
  }

  /** The quadrilateral of one category: along the upper limit from the
      cool end to the warm end, then back along the lower limit. */
  function AdaptiveBand(x0: real, x1: real, up0: real, up1: real, low0: real, low1: real): (r: Curve)
    ensures r.xs == [x0, x1, x1, x0]
    ensures r.ys == [up0, up1, low1, low0]
  {
    var r := Join(Curve([x0, x1], [up0, up1]), Curve([x0, x1], [low0, low1]));
    assert r.xs == [r.xs[0], r.xs[1], r.xs[2], r.xs[3]];
    assert r.ys == [r.ys[0], r.ys[1], r.ys[2], r.ys[3]];
    r
  }

  /** The quadrilaterals of the chart. `comfort(tRunningMean, category)` is
      the (upper, lower) operative-temperature limit of the model's adaptive
      function. */
  function AdaptivePolygons(units: Units, model: string, comfort: (real, string) -> (real, real)): (r: seq<Curve>)
    ensures |r| == |AdaptiveCategories(model)|
    ensures forall k :: 0 <= k < |r| ==>
      var x0, x1 := AdaptiveXValues(units, model).0, AdaptiveXValues(units, model).1;
      var cat := AdaptiveCategories(model)[k];
      && r[k].xs == [x0, x1, x1, x0]
      && r[k].ys == [comfort(x0, cat).0, comfort(x1, cat).0, comfort(x1, cat).1, comfort(x0, cat).1]
  {
    var x0, x1 := AdaptiveXValues(units, model).0, AdaptiveXValues(units, model).1;
    var cats := AdaptiveCategories(model);
    var r := seq(|cats|, k requires 0 <= k < |cats| =>
      AdaptiveBand(x0, x1, comfort(x0, cats[k]).0, comfort(x1, cats[k]).0,
                   comfort(x0, cats[k]).1, comfort(x1, cats[k]).1));
    assert forall k :: 0 <= k < |cats| ==> r[k] == AdaptiveBand(x0, x1, comfort(x0, cats[k]).0, comfort(x1, cats[k]).0,
                                                              comfort(x0, cats[k]).1, comfort(x1, cats[k]).1);
    r
  }
}
