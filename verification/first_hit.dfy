/** The shape shared by the capped loops of the charts: the first step
    number in a range at which a test passes. */
module FirstHit {
  import opened Common

  /** The first `j` in `[k, hi]` with `p(j)`, or `None`. */
  function FirstFrom(p: nat -> bool, k: nat, hi: nat): (r: Option<nat>)
    ensures r.Some? <==> exists j :: k <= j <= hi && p(j)
    ensures r.Some? ==> k <= r.value <= hi && p(r.value)
    ensures r.Some? ==> forall j :: k <= j < r.value ==> !p(j)
    decreases hi - k
  {
    if k > hi then None
    else if p(k) then Some(k)
    else FirstFrom(p, k + 1, hi)
  }

  /** `FirstFrom` finds `k` when `p(k)` holds and no earlier index passes. */
  lemma FirstFromIs(p: nat -> bool, lo: nat, hi: nat, k: nat)
    requires lo <= k <= hi && p(k)
    requires forall j :: lo <= j < k ==> !p(j)
    ensures FirstFrom(p, lo, hi) == Some(k)
  {
  }

  /** `FirstFrom` finds nothing when no index of the range passes. */
  lemma FirstFromNone(p: nat -> bool, lo: nat, hi: nat)
    requires forall j :: lo <= j <= hi ==> !p(j)
    ensures FirstFrom(p, lo, hi) == None
  {
  }

  /** The values of a series of calls when all succeed, otherwise the
      error of the first that failed. */
  function Sequence<T>(calls: seq<Result<T>>): (r: Result<seq<T>>)
    ensures r.Success? <==> forall k :: 0 <= k < |calls| ==> calls[k].Success?
    ensures r.Success? ==> |r.value| == |calls|
    ensures r.Success? ==> forall k :: 0 <= k < |calls| ==> calls[k] == Success(r.value[k])
    ensures r.Failure? ==> exists k :: 0 <= k < |calls| && calls[k] == Failure(r.error)
    ensures r.Failure? ==> FailsFirstWith(calls, r.error)
  {
    if |calls| == 0 then Success([])
    else match calls[0]
      case Failure(err) => Failure(err)
      case Success(v) =>
        match Sequence(calls[1..])
        case Failure(err) => Failure(err)
        case Success(vs) => Success([v] + vs)
  }

  /** `Sequence` of the calls of `f` on each element of `xs`, in order. */
  function SequenceEach<X, T>(xs: seq<X>, f: X --> Result<T>): (r: Result<seq<T>>)
    requires forall k :: 0 <= k < |xs| ==> f.requires(xs[k])
    ensures r.Success? <==> forall k :: 0 <= k < |xs| ==> f(xs[k]).Success?
    ensures r.Success? ==> |r.value| == |xs|
    ensures r.Success? ==> forall k :: 0 <= k < |xs| ==> f(xs[k]) == Success(r.value[k])
    ensures r.Failure? ==> exists k :: 0 <= k < |xs| && f(xs[k]) == Failure(r.error)
  {
    var calls := seq(|xs|, k requires 0 <= k < |xs| => f(xs[k]));
    assert forall k :: 0 <= k < |xs| ==> calls[k] == f(xs[k]);
    Sequence(calls)
  }

  /** The results of calling `f` on each element of `xs`, collected in
      order; the first failing call aborts the series and is reported, all
      calls before it having succeeded. */
  method CollectEach<X, T>(xs: seq<X>, f: X --> Result<T>) returns (r: Result<seq<T>>)
    requires forall k :: 0 <= k < |xs| ==> f.requires(xs[k])
    ensures r.Success? <==> forall k :: 0 <= k < |xs| ==> f(xs[k]).Success?
    ensures r.Success? ==> |r.value| == |xs|
    ensures r.Success? ==> forall k :: 0 <= k < |xs| ==> f(xs[k]) == Success(r.value[k])
    ensures r.Failure? ==> exists k :: 0 <= k < |xs| && f(xs[k]) == Failure(r.error)
                                      && forall j :: 0 <= j < k ==> f(xs[j]).Success?
  {
    var values: seq<T> := [];
    var k := 0;
    while k < |xs|
      invariant 0 <= k <= |xs| && |values| == k
      invariant forall j :: 0 <= j < k ==> f(xs[j]) == Success(values[j])
    {
      var call := f(xs[k]);
      if call.Failure? {
        return Failure(call.error);
      }
      values := values + [call.value];
      k := k + 1;
    }
    r := Success(values);
  }

  /** `err` is the error of the first failing call of the series: every
      call before it succeeded. */
  predicate FailsFirstWith<T>(calls: seq<Result<T>>, err: Error) {
    exists k :: 0 <= k < |calls| && calls[k] == Failure(err) && forall j :: 0 <= j < k ==> calls[j].Success?
  }

  /** Running two equally long series one after the other: the whole
      succeeds iff both do, with their values in order. A failure is either
      the first failing call of the first series, or, when the first series
      succeeds throughout, a call of the second series at an index whose
      first-series call succeeded. */
  lemma {:induction false} SequenceOfTwo<T>(first: seq<Result<T>>, second: seq<Result<T>>)
    requires |first| == |second|
    ensures Sequence(first + second).Success? <==> Sequence(first).Success? && Sequence(second).Success?
    ensures Sequence(first + second).Success? ==>
      Sequence(first + second).value == Sequence(first).value + Sequence(second).value
    ensures var r := Sequence(first + second);
      r.Failure? ==>
        exists b :: 0 <= b < |first| &&
          (first[b] == Failure(r.error) || (first[b].Success? && second[b] == Failure(r.error)))
  {
    SequenceAppend(first, second);
    if Sequence(first + second).Failure? {
      var b := FailingIndexOfTwo(first, second);
    }
  }

  /** The index at which a failed run of two equally long series failed:
      there the first series failed, or the first series' call succeeded
      and the second series' call failed. */
  lemma FailingIndexOfTwo<T>(first: seq<Result<T>>, second: seq<Result<T>>) returns (b: nat)
    requires |first| == |second| && Sequence(first + second).Failure?
    ensures var err := Sequence(first + second).error;
      && b < |first|
      && (first[b] == Failure(err) || (first[b].Success? && second[b] == Failure(err)))
  {
    SequenceAppend(first, second);
    var err := Sequence(first + second).error;
    if Sequence(first).Failure? {
      b :| 0 <= b < |first| && first[b] == Failure(err);
    } else {
      b :| 0 <= b < |second| && second[b] == Failure(err);
      assert first[b].Success?;
    }
  }

  /** `Sequence` over two series run one after the other: the first
      series' failure if it has one, then the second's, and otherwise both
      value lists in order. */
  lemma {:induction false} SequenceAppend<T>(first: seq<Result<T>>, second: seq<Result<T>>)
    ensures Sequence(first + second) ==
      match Sequence(first)
      case Failure(e) => Failure(e)
      case Success(xs) =>
        match Sequence(second)
        case Failure(e) => Failure(e)
        case Success(ys) => Success(xs + ys)
    decreases |first|
  {
    if |first| == 0 {
      assert first + second == second;
      assert Sequence(first) == Success([]);
      if Sequence(second).Success? {
        var ys := Sequence(second).value;
        assert [] + ys == ys;
      }
    } else {
      assert (first + second)[0] == first[0];
      assert (first + second)[1..] == first[1..] + second;
      SequenceAppend(first[1..], second);
      if first[0].Success? && Sequence(first[1..]).Success? && Sequence(second).Success? {
        var v, xs, ys := first[0].value, Sequence(first[1..]).value, Sequence(second).value;
        assert [v] + (xs + ys) == ([v] + xs) + ys;
      }
    }
  }
}
