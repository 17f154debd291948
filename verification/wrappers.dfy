/** Failure-carrying values shared by the other modules. */
module Wrappers {

  /** A value that may be absent; `None` stands for JavaScript's `null` (and for NaN where a number is parsed). */
  datatype Option<+T> = None | Some(value: T)

  /** The outcome of an operation that the source lets throw: `Err` carries what the thrown error reports. */
  datatype Result<+T, +E> = Ok(value: T) | Err(error: E)
}
