/** JavaScript truthiness of the request fields the handlers test with `||` and `?:`. */
module Js {

  import opened Wrappers

  /** A string field is truthy when it was sent and is not empty. */
  predicate TruthyStr(a: Option<string>) {
    a.Some? && a.value != ""
  }

  /** A numeric field is truthy when it was sent and is neither 0 nor NaN. */
  predicate TruthyNum(a: Option<real>) {
    a.Some? && a.value != 0.0
  }

  /** A decimal column as a page receives it: JSON carries it as a string, so a
      present value is truthy even when it is 0. */
  predicate TruthyDecimal(a: Option<real>) {
    a.Some?
  }

  predicate TruthyInt(a: Option<int>) {
    a.Some? && a.value != 0
  }

  /** `a || b` on optional strings. */
  function OrStr(a: Option<string>, b: Option<string>): (r: Option<string>)
    ensures r == a || r == b
    ensures TruthyStr(a) ==> r == a
  {
    if TruthyStr(a) then a else b
  }
}
