/** Optional values, results and validation outcomes, shared by the other
    modules. */
module Wrappers {

  /** An optional value: Python's `None`, SQL's NULL, JavaScript's `null`. */
  datatype Option<+T> = None | Some(value: T)

  /** A value, or the error that prevented computing it. */
  datatype Result<+T, +E> = Ok(value: T) | Err(error: E)

  /** The outcome of a validation step that either passes or raises `error`. */
  datatype Outcome<+E> = Pass | Fail(error: E)
}
