/**
 * Helpers shared by every module: C#'s `T?` / `null` as Option, and LINQ's
 * `FirstOrDefault(predicate)` as the index of the first matching element.
 */
module Wrappers {

  datatype Option<T> = None | Some(value: T) {

    /** The wrapped value, or `default` for None (C#'s `??`). */
    function GetOr(default: T): T {
      match this
      case Some(v) => v
      case None => default
    }
  }

  /** Index of the first element of `s` that `matches`, or None when there is none. */
  function FirstMatch<T>(s: seq<T>, matches: T -> bool): (r: Option<nat>)
    ensures r.Some? ==> r.value < |s| && matches(s[r.value])
    ensures r.Some? ==> forall i | 0 <= i < r.value :: !matches(s[i])
    ensures r.None? <==> forall i | 0 <= i < |s| :: !matches(s[i])
  {
    if s == [] then None
    else if matches(s[0]) then Some(0)
    else match FirstMatch(s[1..], matches)
      case None => None
      case Some(k) => Some(k + 1)
  }
}
