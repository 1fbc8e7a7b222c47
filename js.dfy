/** JavaScript truthiness of string values, as the `if (s)` tests and `||` defaults use it. */
module Js {
  import opened Wrappers

  /** A string that may be `null`/`undefined` is truthy exactly when it is present and non-empty. */
  predicate Truthy(v: Option<string>) {
    v.Some? && v.value != ""
  }

  /** `v || d` where `d` is a string: the value when truthy, else the default. */
  function Or(v: Option<string>, d: string): (r: string)
    ensures Truthy(v) ==> r == v.value
    ensures !Truthy(v) ==> r == d
    ensures d != "" ==> r != ""
  {
    if Truthy(v) then v.value else d
  }

  /** `a || b` where both sides may be nullish: `a` when truthy, else `b` as it is. */
  function OrElse(a: Option<string>, b: Option<string>): (r: Option<string>)
    ensures Truthy(a) ==> r == a
    ensures !Truthy(a) ==> r == b
  {
    if Truthy(a) then a else b
  }
}
