/** Optional values: the model's reading of a JavaScript field that may be
    `null` or `undefined`.  `Coalesce` is the `??` operator. */
module Wrappers {

  datatype Option<+T> = None | Some(value: T) {

    /** `this ?? fallback`: only a missing value falls through. */
    function GetOr(fallback: T): T {
      match this
      case Some(v) => v
      case None => fallback
    }
  }

  /** `a ?? b` on two optional values. */
  function Coalesce<T>(a: Option<T>, b: Option<T>): (r: Option<T>)
    ensures a.Some? ==> r == a
    ensures a.None? ==> r == b
  {
    if a.Some? then a else b
  }

  /** `xs.map(f)` where `f` may throw: every result in order, or `None`
      when one of the calls fails. */
  function MapAll<A, B>(f: A -> Option<B>, xs: seq<A>): (r: Option<seq<B>>)
    ensures r.Some? <==> forall k | 0 <= k < |xs| :: f(xs[k]).Some?
    ensures r.Some? ==> |r.value| == |xs|
    ensures r.Some? ==> forall k | 0 <= k < |xs| :: f(xs[k]) == Some(r.value[k])
  {
    if xs == [] then Some([])
    else match (f(xs[0]), MapAll(f, xs[1..]))
      case (Some(first), Some(rest)) =>
        assert forall k | 1 <= k < |xs| :: xs[k] == xs[1..][k - 1];
        Some([first] + rest)
      case (None, _) => None
      case (_, None) =>
        assert forall k | 1 <= k < |xs| :: xs[k] == xs[1..][k - 1];
        None
  }
}
