/**
 * Optional values and the two JavaScript defaulting operators the components
 * use on optional strings: `x || d` (any falsy value, including the empty
 * string, takes the default) and `x ?? d` (only a missing value does).
 */
module Wrappers {

  datatype Option<+T> = None | Some(value: T)

  /** A string-valued prop is truthy when it is present and non-empty. */
  predicate Truthy(o: Option<string>) {
    o.Some? && o.value != ""
  }

  /** `o || d` on an optional string. */
  function OrElse(o: Option<string>, d: string): (r: string)
    ensures Truthy(o) ==> r == o.value
    ensures !Truthy(o) ==> r == d
  {
    if Truthy(o) then o.value else d
  }

  /** `o ?? d`: only a missing value takes the default. */
  function Coalesce<T>(o: Option<T>, d: T): (r: T)
    ensures o.Some? ==> r == o.value
    ensures o.None? ==> r == d
  {
    match o
    case Some(v) => v
    case None => d
  }
}
