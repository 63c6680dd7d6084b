/** Search over sequences with the semantics of JavaScript's `Array.prototype.find`. */
module Sequences {
  import opened Wrappers

  /** The position of the FIRST element satisfying `matches`, or None when no element does. */
  function FindIndex<T>(xs: seq<T>, matches: T -> bool): (r: Option<nat>)
    ensures r.Some? ==> r.value < |xs| && matches(xs[r.value])
    ensures r.Some? ==> forall k :: 0 <= k < r.value ==> !matches(xs[k])
    ensures r.None? <==> forall k :: 0 <= k < |xs| ==> !matches(xs[k])
    decreases |xs|
  {
    if |xs| == 0 then None
    else if matches(xs[0]) then Some(0)
    else
      match FindIndex(xs[1..], matches)
      case None => None
      case Some(k) => Some(k + 1)
  }

  /** Searches that see the same verdict at every position find the same position. */
  lemma {:induction false} FindIndexAgree<T, U>(xs: seq<T>, p: T -> bool, ys: seq<U>, q: U -> bool)
    requires |xs| == |ys|
    requires forall k :: 0 <= k < |xs| ==> p(xs[k]) == q(ys[k])
    ensures FindIndex(xs, p) == FindIndex(ys, q)
    decreases |xs|
  {
    if |xs| > 0 && !p(xs[0]) {
      FindIndexAgree(xs[1..], p, ys[1..], q);
    }
  }
}
