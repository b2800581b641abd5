/**
 The logicle (biexponential) scale of one channel: the four-parameter record,
 its forward and inverse mappings (delegated to a numeric solver), and the
 estimator that fits the parameters to a channel's data.
 */
module Logicle {
  import opened Common

  /** The parameter tuple in constructor order (T, M, W, A). */
  type Params = (real, real, real, real)

  /**
   A logicle transform: top of scale T, positive decades M, width of the
   linear region W and negative addition A. Set once at construction.
   */
  datatype LogicleTransform = LogicleTransform(
    topOfScale: real,
    mPositiveDecades: real,
    widthOfLinear: real,
    additionNegative: real)
  {
    /** The four parameters, from which the same transform is rebuilt. */
    function GetParams(): (p: Params)
      ensures LogicleTransform(p.0, p.1, p.2, p.3) == this
    {
      (topOfScale, mPositiveDecades, widthOfLinear, additionNegative)
    }

    /** The forward mapping, applied to each measurement on its own. */
    function Call(solver: Solver, data: seq<real>): (r: seq<real>)
      ensures |r| == |data|
      ensures forall i :: 0 <= i < |data| ==> r[i] == solver.logicle(this, data[i])
    {
      seq(|data|, i requires 0 <= i < |data| => solver.logicle(this, data[i]))
    }

    /** The inverse mapping, applied to each display value on its own. */
    function Inverse(solver: Solver, data: seq<real>): (r: seq<real>)
      ensures |r| == |data|
      ensures forall i :: 0 <= i < |data| ==> r[i] == solver.logicleInverse(this, data[i])
    {
      seq(|data|, i requires 0 <= i < |data| => solver.logicleInverse(this, data[i]))
    }
  }

  /** The external logicle solver, one value at a time, for given parameters. */
  datatype Solver = Solver(
    logicle: (LogicleTransform, real) -> real,
    logicleInverse: (LogicleTransform, real) -> real)

  /**
   The floating-point primitives the estimator calls: `log10`, `10 ** x`,
   `round(x, 1)` and the `q`-quantile of a sample.
   */
  datatype Numerics = Numerics(
    log10: real -> real,
    pow10: real -> real,
    round1: real -> real,
    quantile: (seq<real>, real) -> real)

  /**
   The only facts about the primitives that the estimator's proofs use:
   log10 and pow10 are increasing with log10(1) = 0 and pow10(0) = 1, and
   rounding is monotone and keeps 0.
   */
  ghost predicate Sound(n: Numerics)
  {
    n.log10(1.0) == 0.0 &&
    (forall x, y :: 0.0 < x < y ==> n.log10(x) < n.log10(y)) &&
    n.pow10(0.0) == 1.0 &&
    (forall x, y :: x < y ==> n.pow10(x) < n.pow10(y)) &&
    n.round1(0.0) == 0.0 &&
    (forall x, y :: x <= y ==> n.round1(x) <= n.round1(y))
  }

  /** Why an estimation aborts: numpy's `max` on no data, or one of the three asserts. */
  datatype EstimationError =
    | EmptyData
    | TopOfScaleNotAboveOne(topOfScale: real)
    | DecadesNotPositive(mPositiveDecades: real)
    | WidthNotPositive(topOfScale: real, mPositiveDecades: real, r: real)

  /** The quantile level used for the lower tail. */
  const LowerTail: real := 0.05

  /** The exponent of the top of scale. */
  function TopDecade(data: seq<real>, n: Numerics): (td: real)
    requires |data| > 0
    ensures Max(data) <= 1.0 ==> td == 0.1
  {
    if Max(data) > 1.0 then n.round1(n.log10(Max(data))) + 0.1 else 0.1
  }

  /** The number of positive decades for a given top-decade exponent. */
  function Decades(td: real): (m: real)
    ensures td > 1.0 ==> m > 0.8
    ensures 0.01 < td ==> m > 0.0
    ensures m < td
  {
    if td > 1.0 then td - 0.2 else td - 0.01
  }

  /** The parameters `logicle_transform` fits to one channel, or the assert that fires. */
  function EstimateParams(data: seq<real>, n: Numerics): (r: Result<LogicleTransform, EstimationError>)
    ensures r == Failure(EmptyData) <==> |data| == 0
    ensures r.Success? ==>
      r.value.topOfScale > 1.0 && r.value.mPositiveDecades > 0.0 && r.value.widthOfLinear > 0.0
    ensures r.Success? ==> r.value.widthOfLinear >= 0.05
    ensures r.Success? ==>
      (r.value.additionNegative == 0.25 <==> Abs(n.quantile(data, LowerTail)) > 1.0) &&
      (r.value.additionNegative == 0.05 <==> Abs(n.quantile(data, LowerTail)) <= 1.0)
    ensures r.Success? && r.value.additionNegative == 0.05 ==> r.value.widthOfLinear == 0.05
    ensures !(r.Failure? && r.error.WidthNotPositive?)
  {
    if |data| == 0 then Failure(EmptyData)
    else
      var td := TopDecade(data, n);
      var t := n.pow10(td);
      if !(t > 1.0) then Failure(TopOfScaleNotAboveOne(t))
      else
        var m := Decades(td);
        if !(m > 0.0) then Failure(DecadesNotPositive(m))
        else
          var r := n.quantile(data, LowerTail);
          var (w, a) :=
            if Abs(r) > 1.0 then
              var w0 := (m - n.log10(t / Abs(r))) / 2.0;
              (if 0.05 >= w0 then 0.05 else w0, 0.25)
            else (0.05, 0.05);
          if !(w > 0.0) then Failure(WidthNotPositive(t, m, r))
          else Success(LogicleTransform(t, m, w, a))
  }

  /** Under sound primitives the top decade is at least 0.1. */
  lemma TopDecadeAtLeastTenth(data: seq<real>, n: Numerics)
    requires |data| > 0 && Sound(n)
    ensures TopDecade(data, n) >= 0.1
  {
    var mx := Max(data);
    if mx > 1.0 {
      assert n.log10(1.0) < n.log10(mx);
      assert n.round1(0.0) <= n.round1(n.log10(mx));
    }
  }

  /**
   None of the three asserts of the estimator can fire on non-empty data:
   T > 1 and M > 0 because the top decade is at least 0.1, and W >= 0.05.
   */
  lemma EstimateSucceeds(data: seq<real>, n: Numerics)
    requires |data| > 0 && Sound(n)
    ensures EstimateParams(data, n).Success?
  {
    var td := TopDecade(data, n);
    TopDecadeAtLeastTenth(data, n);
    assert n.pow10(0.0) < n.pow10(td);
  }

  /** On data whose maximum is at most 1: top decade 0.1, so T = 10^0.1 and M = 0.09. */
  lemma SmallMaximumParams(data: seq<real>, n: Numerics)
    requires |data| > 0 && Max(data) <= 1.0
    requires EstimateParams(data, n).Success?
    ensures EstimateParams(data, n).value.topOfScale == n.pow10(0.1)
    ensures EstimateParams(data, n).value.mPositiveDecades == 0.09
  {
  }

  /** M is the top decade less 0.2 above one decade, less 0.01 otherwise. */
  lemma DecadesRule(data: seq<real>, n: Numerics)
    requires EstimateParams(data, n).Success?
    ensures |data| > 0
    ensures var td := TopDecade(data, n);
      EstimateParams(data, n).value.topOfScale == n.pow10(td) &&
      EstimateParams(data, n).value.mPositiveDecades ==
        (if td > 1.0 then td - 0.2 else td - 0.01)
  {
  }

  /** What `logicle_transform` returns: the transformed data, and the transform if asked for. */
  datatype Output =
    | Transformed(data: seq<real>)
    | TransformedWithTransform(data: seq<real>, transform: LogicleTransform)

  /**
   Fit the parameters, build the transform from exactly them and apply it;
   `returnTransform` only selects the shape of the answer.
   */
  function LogicleTransformData(
    data: seq<real>, returnTransform: bool, n: Numerics, solver: Solver
  ): (r: Result<Output, EstimationError>)
    ensures r.Failure? <==> EstimateParams(data, n).Failure?
    ensures r.Failure? ==> r.error == EstimateParams(data, n).error
    ensures r.Success? ==>
      var t := EstimateParams(data, n).value;
      |r.value.data| == |data| &&
      (forall i :: 0 <= i < |data| ==> r.value.data[i] == solver.logicle(t, data[i])) &&
      (r.value.TransformedWithTransform? <==> returnTransform) &&
      (returnTransform ==> r.value.transform == t)
  {
    match EstimateParams(data, n)
    case Failure(e) => Failure(e)
    case Success(t) =>
      if returnTransform then Success(TransformedWithTransform(t.Call(solver, data), t))
      else Success(Transformed(t.Call(solver, data)))
  }
}
