/** Failure-compatible wrappers used across the model: `Option` for Python's
    `None`-or-value results and `Result` for operations that raise. */
module Wrappers {

  datatype Option<+T> = None | Some(value: T) {

    /** Python's `x or default` for an optional value. */
    function GetOr(default: T): T {
      match this
      case Some(v) => v
      case None => default
    }
  }

  datatype Result<+R, +E> = Success(value: R) | Failure(error: E) {

    predicate IsFailure() {
      Failure?
    }

    function PropagateFailure<U>(): Result<U, E>
      requires Failure?
    {
      Failure(this.error)
    }

    function Extract(): R
      requires Success?
    {
      value
    }
  }

  /** A Python loop applying a step that may raise to each element in turn:
      the results before the first failure, and whether a failure stopped
      the loop. */
  function MapUntilFailure<A, B>(xs: seq<A>, step: A -> Option<B>): (r: (seq<B>, bool))
    ensures r.1 <==> exists k :: 0 <= k < |xs| && step(xs[k]).None?
    ensures |r.0| <= |xs| && (!r.1 ==> |r.0| == |xs|)
    ensures forall k :: 0 <= k < |r.0| ==> step(xs[k]) == Some(r.0[k])
    ensures r.1 ==> step(xs[|r.0|]).None?
    decreases |xs|
  {
    if xs == [] then ([], false)
    else
      match step(xs[0])
      case None => ([], true)
      case Some(y) =>
        var rest := MapUntilFailure(xs[1..], step);
        assert forall k :: 1 <= k < |xs| ==> xs[k] == xs[1..][k - 1];
        ([y] + rest.0, rest.1)
  }

  /** The loop over all but the first element, stated by position in the
      whole sequence. */
  lemma MapUntilFailureSkipFirst<A, B>(xs: seq<A>, step: A -> Option<B>)
    requires xs != []
    ensures var r := MapUntilFailure(xs[1..], step);
      && (r.1 <==> exists k :: 1 <= k < |xs| && step(xs[k]).None?)
      && |r.0| <= |xs| - 1 && (!r.1 ==> |r.0| == |xs| - 1)
      && (forall k :: 0 <= k < |r.0| ==> step(xs[k + 1]) == Some(r.0[k]))
      && (r.1 ==> |r.0| + 1 < |xs| && step(xs[|r.0| + 1]).None?)
  {
    assert forall k :: 1 <= k < |xs| ==> xs[k] == xs[1..][k - 1];
  }
}
