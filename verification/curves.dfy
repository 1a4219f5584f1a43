/** Boundary curves of the psychrometric and adaptive charts: resampling a
    fitted quadratic (`curve_fit`) and stitching a lower and an upper curve
    into one closed polygon.

    `np.polyfit` is foreign: it is a parameter returning the least-squares
    coefficients or the error it raises. */
module Curves {
  import opened Common

  /** `n` evenly spaced points from `lo` to `hi` inclusive (`np.linspace`
      with its default `endpoint=True`); a single point is `lo`. */
  function Linspace(lo: real, hi: real, n: nat): (r: seq<real>)
    ensures |r| == n
    ensures n >= 1 ==> r[0] == lo
    ensures n >= 2 ==> r[n - 1] == hi
    ensures n >= 2 ==> forall k :: 0 <= k < n - 1 ==> r[k + 1] - r[k] == (hi - lo) / (n - 1) as real
  {
    if n <= 1 then seq(n, k => lo)
    else
      var step := (hi - lo) / (n - 1) as real;
      assert (n - 1) as real * step == hi - lo;
      seq(n, k => lo + k as real * step)
  }

  /** With `lo <= hi` the points ascend and stay inside `[lo, hi]`. */
  lemma LinspaceAscends(lo: real, hi: real, n: nat)
    requires lo <= hi
    ensures forall k :: 0 <= k < n - 1 ==> Linspace(lo, hi, n)[k] <= Linspace(lo, hi, n)[k + 1]
    ensures forall k :: 0 <= k < n ==> lo <= Linspace(lo, hi, n)[k] <= hi
  {
    var r := Linspace(lo, hi, n);
    if n >= 2 {
      var step := (hi - lo) / (n - 1) as real;
      assert step >= 0.0;
      forall k | 0 <= k < n
        ensures lo <= r[k] <= hi
      {
        assert r[k] == lo + k as real * step;
        assert k as real * step >= 0.0;
        var rest := (n - 1 - k) as real;
        assert rest * step >= 0.0;
        assert k as real * step + rest * step == (n - 1) as real * step;
        assert (n - 1) as real * step == hi - lo;
      }
    }
  }

  /** Python's `min` of a list: the error `min` raises on an empty one. */
  function MinOf(xs: seq<real>): (r: Result<real>)
    ensures r.Failure? <==> |xs| == 0
    ensures r.Failure? ==> r.error == EmptyInput
    ensures r.Success? ==> r.value in xs && forall x :: x in xs ==> r.value <= x
  {
    if |xs| == 0 then Failure(EmptyInput)
    else if |xs| == 1 then Success(xs[0])
    else
      var rest := MinOf(xs[1..]);
      assert forall x :: x in xs ==> x == xs[0] || x in xs[1..];
      Success(if xs[0] <= rest.value then xs[0] else rest.value)
  }

  /** Python's `max` of a list. */
  function MaxOf(xs: seq<real>): (r: Result<real>)
    ensures r.Failure? <==> |xs| == 0
    ensures r.Failure? ==> r.error == EmptyInput
    ensures r.Success? ==> r.value in xs && forall x :: x in xs ==> x <= r.value
  {
    if |xs| == 0 then Failure(EmptyInput)
    else if |xs| == 1 then Success(xs[0])
    else
      var rest := MaxOf(xs[1..]);
      assert forall x :: x in xs ==> x == xs[0] || x in xs[1..];
      Success(if xs[0] >= rest.value then xs[0] else rest.value)
  }

  /** The coefficients of `a x^2 + b x + c`, highest power first as
      `np.polyfit(x, y, 2)` returns them. */
  datatype Quadratic = Quadratic(a: real, b: real, c: real)

  /** `np.poly1d(coefficients)(x)`. */
  function Eval(q: Quadratic, x: real): real {
    q.a * x * x + q.b * x + q.c
  }

  /** A resampled curve, or a closed outline: the x- and the y-coordinates
      of its vertices. */
  datatype Curve = Curve(xs: seq<real>, ys: seq<real>)

  /** `curve_fit(x, y, num_points)`: fit a quadratic (the foreign `polyfit`,
      whose error propagates), then evaluate it at `num_points` evenly spaced
      x-values from `min(x)` to `max(x)`. */
  function CurveFit(polyfit: (seq<real>, seq<real>) -> Result<Quadratic>,
                    x: seq<real>, y: seq<real>, numPoints: nat): (r: Result<Curve>)
    ensures r.Success? <==> polyfit(x, y).Success? && |x| > 0
    ensures r.Success? ==>
      && |r.value.xs| == numPoints && |r.value.ys| == numPoints
      && (forall k :: 0 <= k < numPoints ==> r.value.ys[k] == Eval(polyfit(x, y).value, r.value.xs[k]))
      && (forall k :: 0 <= k < numPoints - 1 ==>
            r.value.xs[k + 1] - r.value.xs[k] == (MaxOf(x).value - MinOf(x).value) / (numPoints - 1) as real)
  {
    match polyfit(x, y)
    case Failure(err) => Failure(err)
    case Success(q) =>
      match MinOf(x)
      case Failure(err) => Failure(err)
      case Success(lo) =>
        var hi := MaxOf(x).value;
        var xs := Linspace(lo, hi, numPoints);
        Success(Curve(xs, seq(numPoints, k requires 0 <= k < numPoints => Eval(q, xs[k]))))
  }

  /** The resampled x-values start at the smallest input, end at the largest,
      ascend, and every one lies between the two. */
  lemma CurveFitSpansInput(polyfit: (seq<real>, seq<real>) -> Result<Quadratic>,
                           x: seq<real>, y: seq<real>, numPoints: nat)
    requires CurveFit(polyfit, x, y, numPoints).Success?
    ensures var c := CurveFit(polyfit, x, y, numPoints).value;
      && (numPoints >= 1 ==> c.xs[0] in x && forall v :: v in x ==> c.xs[0] <= v)
      && (numPoints >= 2 ==> c.xs[numPoints - 1] in x && forall v :: v in x ==> v <= c.xs[numPoints - 1])
      && (forall k :: 0 <= k < numPoints - 1 ==> c.xs[k] <= c.xs[k + 1])
      && (forall k :: 0 <= k < numPoints ==> MinOf(x).value <= c.xs[k] <= MaxOf(x).value)
  {
    var lo, hi := MinOf(x).value, MaxOf(x).value;
    assert lo <= x[0] <= hi;
    LinspaceAscends(lo, hi, numPoints);
  }

  /** `s[::-1]`. */
  function Reverse<T>(s: seq<T>): (r: seq<T>)
    ensures |r| == |s|
    ensures forall k :: 0 <= k < |s| ==> r[k] == s[|s| - 1 - k]
  {
    seq(|s|, k requires 0 <= k < |s| => s[|s| - 1 - k])
  }

  /** Reversing twice gives the sequence back. */
  lemma ReverseInvolution<T>(s: seq<T>)
    ensures Reverse(Reverse(s)) == s
  {
    assert forall k :: 0 <= k < |s| ==> Reverse(Reverse(s))[k] == s[k];
  }

  /** The outline of a band: the lower curve followed by the upper curve
      traversed backwards (`np.concatenate([lower, upper[::-1]])`). */
  function Stitch<T>(lower: seq<T>, upper: seq<T>): (r: seq<T>)
    ensures |r| == |lower| + |upper|
    ensures forall k :: 0 <= k < |lower| ==> r[k] == lower[k]
    ensures forall k :: |lower| <= k < |r| ==> r[k] == upper[|r| - 1 - k]
    ensures |upper| > 0 ==> r[|r| - 1] == upper[0]
    ensures |lower| > 0 ==> r[0] == lower[0]
  {
    lower + Reverse(upper)
  }

  /** The outline of a band between two curves given by coordinate lists:
      the lower curve's vertices, then the upper curve's backwards. */
  function Join(lower: Curve, upper: Curve): (r: Curve)
    requires |lower.xs| == |lower.ys| && |upper.xs| == |upper.ys|
    ensures |r.xs| == |r.ys| == |lower.xs| + |upper.xs|
    ensures forall k :: 0 <= k < |lower.xs| ==> r.xs[k] == lower.xs[k] && r.ys[k] == lower.ys[k]
    ensures forall k :: |lower.xs| <= k < |r.xs| ==>
      r.xs[k] == upper.xs[|r.xs| - 1 - k] && r.ys[k] == upper.ys[|r.xs| - 1 - k]
  {
    Curve(Stitch(lower.xs, upper.xs), Stitch(lower.ys, upper.ys))
  }

  /** When each curve lies on its quadratic, every vertex of the joined
      outline lies on the quadratic of the curve it came from. */
  lemma JoinOnCurves(lower: Curve, upper: Curve, ql: Quadratic, qu: Quadratic)
    requires |lower.xs| == |lower.ys| && |upper.xs| == |upper.ys|
    requires forall k :: 0 <= k < |lower.xs| ==> lower.ys[k] == Eval(ql, lower.xs[k])
    requires forall k :: 0 <= k < |upper.xs| ==> upper.ys[k] == Eval(qu, upper.xs[k])
    ensures var r := Join(lower, upper);
      && (forall k :: 0 <= k < |lower.xs| ==> r.ys[k] == Eval(ql, r.xs[k]))
      && (forall k :: |lower.xs| <= k < |r.xs| ==> r.ys[k] == Eval(qu, r.xs[k]))
  {
    var r := Join(lower, upper);
    forall k | |lower.xs| <= k < |r.xs|
      ensures r.ys[k] == Eval(qu, r.xs[k])
    {
      var j := |r.xs| - 1 - k;
      assert r.xs[k] == upper.xs[j] && r.ys[k] == upper.ys[j];
    }
  }

  /** Pairs of corresponding elements. */
  function Zip<A, B>(a: seq<A>, b: seq<B>): (r: seq<(A, B)>)
    requires |a| == |b|
    ensures |r| == |a|
    ensures forall k :: 0 <= k < |a| ==> r[k] == (a[k], b[k])
  {
    seq(|a|, k requires 0 <= k < |a| => (a[k], b[k]))
  }

  /** Reversing both coordinate lists reverses the list of points, so every
      point keeps its own coordinates. */
  lemma ReverseKeepsPairs<A, B>(a: seq<A>, b: seq<B>)
    requires |a| == |b|
    ensures Zip(Reverse(a), Reverse(b)) == Reverse(Zip(a, b))
  {
  }

  /** Stitching the x- and the y-lists separately outlines the same polygon
      as stitching the points. */
  lemma StitchKeepsPairs<A, B>(lowerX: seq<A>, lowerY: seq<B>, upperX: seq<A>, upperY: seq<B>)
    requires |lowerX| == |lowerY| && |upperX| == |upperY|
    ensures Zip(Stitch(lowerX, upperX), Stitch(lowerY, upperY)) == Stitch(Zip(lowerX, lowerY), Zip(upperX, upperY))
  {
    var left := Zip(Stitch(lowerX, upperX), Stitch(lowerY, upperY));
    var right := Stitch(Zip(lowerX, lowerY), Zip(upperX, upperY));
    assert forall k :: 0 <= k < |left| ==> left[k] == right[k];
  }
}
