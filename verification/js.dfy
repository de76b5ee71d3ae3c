/** JavaScript values as they arrive in request bodies and sit in stored
    attributes, and the two merge idioms the controllers use on them. */
module Js {

  /** A request-body or attribute value. Dates travel as their string or
      numeric form; floating point and NaN are not modelled. */
  datatype Value = Undefined | Null | Bool(b: bool) | Num(n: int) | Str(s: string)

  /** JavaScript truthiness: `undefined`, `null`, `false`, `0` and `""` are falsy. */
  predicate Truthy(v: Value) {
    match v
    case Undefined => false
    case Null => false
    case Bool(b) => b
    case Num(n) => n != 0
    case Str(s) => s != ""
  }

  /** `x || fallback`: a falsy `x` keeps the fallback. */
  function Or(x: Value, fallback: Value): Value {
    if Truthy(x) then x else fallback
  }

  /** `x !== undefined ? x : fallback`: any defined `x`, even `null` or `""`, wins. */
  function IfDefined(x: Value, fallback: Value): Value {
    if x != Undefined then x else fallback
  }

  /** `id || fallback` on a numeric id, where 0 stands for an absent id. */
  function IdOr(id: nat, fallback: nat): nat {
    if id != 0 then id else fallback
  }
}
