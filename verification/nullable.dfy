/** JavaScript's `T | null` (and `undefined`, which the modelled code never
    distinguishes from `null`) as an option type, with the `??` operator. */
module Nullable {

  datatype Option<+T> = None | Some(value: T) {

    /** `this ?? fallback`: the held value, or the fallback when null. */
    function OrElse(fallback: T): T {
      match this
      case Some(v) => v
      case None => fallback
    }
  }

  /** `a ?? b` where both sides are nullable. */
  function Coalesce<T>(a: Option<T>, b: Option<T>): (r: Option<T>)
    ensures a.Some? ==> r == a
    ensures a.None? ==> r == b
  {
    if a.Some? then a else b
  }
}
