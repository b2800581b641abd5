/**
 Shared vocabulary of the gating pipeline: optional and failing results,
 two-dimensional points of a channel pair, and the extrema of a sample.
 */
module Common {

  /** An absent or present value (Python's `None` or an object). */
  datatype Option<+T> = None | Some(value: T)

  /** The outcome of an operation that may raise instead of returning. */
  datatype Result<+T, +E> = Success(value: T) | Failure(error: E)

  /** The name of a measurement channel (a column of a sample table). */
  type Channel = string

  /** A candidate gating dimension pair: one row of the pairs table. */
  datatype Pair = Pair(channel1: Channel, channel2: Channel)

  /**
   A point of a channel pair's plane. `x0` is the coordinate along the pair's
   first channel (column 0 of the pair's array), `x1` along the second.
   */
  datatype Point = Point(x0: real, x1: real)

  function Abs(x: real): (r: real)
    ensures r >= 0.0 && (r == x || r == -x)
  {
    if x < 0.0 then -x else x
  }

  /** The largest measurement of a non-empty sample (numpy's `max`). */
  function Max(s: seq<real>): (m: real)
    requires |s| > 0
    ensures m in s
    ensures forall i :: 0 <= i < |s| ==> s[i] <= m
  {
    if |s| == 1 then s[0]
    else
      var rest := Max(s[1..]);
      if s[0] >= rest then s[0] else rest
  }

  /** The smallest value of a non-empty sample. */
  function Min(s: seq<real>): (m: real)
    requires |s| > 0
    ensures m in s
    ensures forall i :: 0 <= i < |s| ==> m <= s[i]
  {
    if |s| == 1 then s[0]
    else
      var rest := Min(s[1..]);
      if s[0] <= rest then s[0] else rest
  }

  /**
   What every quantile routine promises and the pipeline relies on: the
   `q`-quantile of a non-empty sample is never below its minimum.
   */
  ghost predicate QuantileAtLeastMin(quantile: (seq<real>, real) -> real, q: real)
  {
    forall s :: |s| > 0 ==> Min(s) <= quantile(s, q)
  }

  /**
   Applying a step that may raise to each element in turn: the results in
   order, or the error of the first element whose step raises.
   */
  function MapResults<A, B, E>(xs: seq<A>, step: A -> Result<B, E>): (r: Result<seq<B>, E>)
  {
    if |xs| == 0 then Success([])
    else
      match MapResults(xs[..|xs| - 1], step)
      case Failure(e) => Failure(e)
      case Success(ys) =>
        match step(xs[|xs| - 1])
        case Failure(e) => Failure(e)
        case Success(y) => Success(ys + [y])
  }

  /**
   The batch succeeds exactly when every step does, and then holds one
   result per element in element order; otherwise it carries the error of
   the first failing step.
   */
  lemma {:induction false} MapResultsShape<A, B, E>(xs: seq<A>, step: A -> Result<B, E>)
    ensures var r := MapResults(xs, step);
      (r.Success? <==> forall i :: 0 <= i < |xs| ==> step(xs[i]).Success?) &&
      (r.Success? ==> |r.value| == |xs| && forall i :: 0 <= i < |xs| ==> r.value[i] == step(xs[i]).value) &&
      (r.Failure? ==> exists i :: (0 <= i < |xs| && step(xs[i]) == Failure(r.error) &&
        forall j :: 0 <= j < i ==> step(xs[j]).Success?))
  {
    if |xs| > 0 {
      var last := |xs| - 1;
      var prefix := xs[..last];
      MapResultsShape(prefix, step);
      assert forall i :: 0 <= i < last ==> prefix[i] == xs[i];
      var r0 := MapResults(prefix, step);
      if r0.Failure? {
        var i :| 0 <= i < last && step(prefix[i]) == Failure(r0.error) &&
          forall j :: 0 <= j < i ==> step(prefix[j]).Success?;
        assert step(xs[i]) == Failure(r0.error);
      }
    }
  }

  /** Once a leading part of the elements raises, the whole batch raises the same error. */
  lemma {:induction false} MapResultsFailurePrefix<A, B, E>(xs: seq<A>, step: A -> Result<B, E>, k: nat)
    requires k <= |xs| && MapResults(xs[..k], step).Failure?
    ensures MapResults(xs, step) == MapResults(xs[..k], step)
  {
    if k < |xs| {
      var last := |xs| - 1;
      assert xs[..last][..k] == xs[..k];
      MapResultsFailurePrefix(xs[..last], step, k);
    } else {
      assert xs[..k] == xs;
    }
  }

  /** One more element: its step's outcome extends or ends the batch. */
  lemma MapResultsStep<A, B, E>(xs: seq<A>, step: A -> Result<B, E>, k: nat, ys: seq<B>)
    requires k < |xs| && MapResults(xs[..k], step) == Success(ys)
    ensures step(xs[k]).Success? ==> MapResults(xs[..k + 1], step) == Success(ys + [step(xs[k]).value])
    ensures step(xs[k]).Failure? ==> MapResults(xs[..k + 1], step) == Failure(step(xs[k]).error)
  {
    assert xs[..k + 1][..k] == xs[..k];
  }
}
