/** Small result types shared by the model. */
module Wrappers {

  /** A value that may be absent (TypeScript's `T | void` / optional field). */
  datatype Option<+T> = None | Some(value: T)

  /** How a call that may throw ends: normally, or with `throw new Error(message)`. */
  datatype Outcome = Returned | Thrown(message: string)

  function Min(a: real, b: real): (r: real)
    ensures r <= a && r <= b && (r == a || r == b)
  {
    if a <= b then a else b
  }

  function Max(a: real, b: real): (r: real)
    ensures r >= a && r >= b && (r == a || r == b)
  {
    if a >= b then a else b
  }
}
