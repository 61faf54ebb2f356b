/** Explicit stand-ins for JavaScript's `null`/`undefined` and for thrown exceptions. */
module Wrappers {

  /** A value that may be absent (`null` from a lookup, `undefined` from an early `return;`). */
  datatype Option<+T> = None | Some(value: T)

  /** The outcome of a computation that either returns a value or throws `error`. */
  datatype Result<+T, +E> = Ok(value: T) | Err(error: E)

  /** The outcome of a guard that returns nothing on success or throws `error`. */
  datatype Outcome<+E> = Pass | Fail(error: E)
}
