/** Option and Result values shared by the rest of the model. */
module Wrappers {

  /** A value that may be absent: the TypeScript `T | null` (or an omitted optional field). */
  datatype Option<+T> = None | Some(value: T)

  /** The outcome of an operation that either produces a value or fails with an error. */
  datatype Result<+T, +E> = Ok(value: T) | Err(error: E)
}
