/** JavaScript values as the library's dynamic code sees them. */
module Js {

  /** A value that may be missing: `undefined`, `null` or NaN in the library, depending on the place. */
  datatype Option<T> = None | Some(value: T)

  /**
   * The values that reach the modelled code through untyped arguments: parameter objects,
   * event names, activation flags and configuration fields.
   */
  datatype Value = Undefined | Null | Bool(b: bool) | Number(n: real) | Str(s: string)

  /** The exceptions the modelled code can raise: a property read on `undefined`, an unbound name. */
  datatype Exception = TypeError | ReferenceError

  /** A call that returns normally with a value, or throws. */
  datatype Outcome<T> = Ok(value: T) | Throws(error: Exception)

  /** JavaScript truthiness, as used by `if (v)` and `v || d`. */
  predicate Truthy(v: Value)
  {
    match v
    case Undefined => false
    case Null => false
    case Bool(b) => b
    case Number(n) => n != 0.0
    case Str(s) => s != ""
  }

  /** The number a relational operator converts a value to; `None` stands for NaN. */
  function ToNumber(v: Value): Option<real>
  {
    match v
    case Undefined => None
    case Null => Some(0.0)
    case Bool(b) => Some(if b then 1.0 else 0.0)
    case Number(n) => Some(n)
    case Str(_) => None
  }

  /** `d < v` for an integer `d`: false whenever `v` converts to NaN. */
  predicate LessThan(d: int, v: Value)
  {
    match ToNumber(v)
    case None => false
    case Some(x) => (d as real) < x
  }

  /** `d >= v` for an integer `d`: false whenever `v` converts to NaN. */
  predicate AtLeast(d: int, v: Value)
  {
    match ToNumber(v)
    case None => false
    case Some(x) => (d as real) >= x
  }
}
