/** Option and Result, and the JavaScript exceptions the modelled code can raise. */
module Wrappers {

  datatype Option<+T> = None | Some(value: T)

  /** The exception kinds the modelled JavaScript raises, plus the cases the
      model reports where the source hands a degenerate value to a foreign library. */
  datatype Error =
    | TypeError        // property access on undefined, destructuring undefined, calling a missing method
    | RangeError       // typed-array or DataView access out of bounds, invalid typed-array length
    | ReferenceError   // evaluation of an undeclared identifier
    | Thrown(message: string)  // an explicit `throw new Error(message)`
    | Unsupported      // a degenerate value reaches a foreign library whose behaviour is not modelled

  datatype Result<+T> = Success(value: T) | Failure(error: Error)

  /** How a state-changing operation that reports its exception in `err`
      relates to the value `r` that specifies it: on failure `err` holds the
      exception, on success there is none and the new state `now` is the value. */
  predicate Outcome<T(==)>(r: Result<T>, err: Option<Error>, now: T) {
    match r
    case Failure(e) => err == Some(e)
    case Success(s) => err.None? && now == s
  }
}
