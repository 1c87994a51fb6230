/**
 * The few pieces of JavaScript value semantics the area chart depends on:
 * truthiness (ToBoolean) and the value-returning `||` operator.
 */
module Js {

  /**
   * A JavaScript value as far as the chart configuration uses it.
   * `Undefined` stands for both `undefined` and `null`; numbers are exact
   * rationals (`real`) with `NaN` kept apart; `Object` is any object,
   * array or function.
   */
  datatype Value = Undefined | Bool(b: bool) | Num(n: real) | NaN | Str(s: string) | Object

  /** ToBoolean: `undefined`, `null`, `false`, `0`, `NaN` and `""` are falsy, all else is truthy. */
  predicate Truthy(v: Value) {
    match v
    case Undefined => false
    case Bool(b) => b
    case Num(n) => n != 0.0
    case NaN => false
    case Str(s) => s != ""
    case Object => true
  }

  /**
   * `a || b`: yields one of its operands, never a converted boolean; the
   * left one exactly when it is truthy.
   */
  function Or(a: Value, b: Value): (r: Value)
    ensures r == a || r == b
    ensures Truthy(a) ==> r == a
    ensures !Truthy(a) ==> r == b
    ensures Truthy(r) <==> Truthy(a) || Truthy(b)
  {
    if Truthy(a) then a else b
  }
}
