/** Failure-carrying values shared by every module of the model. */
module Wrappers {

  /** A value that may be absent (a missing field, an unset error message). */
  datatype Option<+T> = None | Some(value: T)

  /** The outcome of an operation that the source can abort with an exception. */
  datatype Result<+T, +E> = Ok(value: T) | Err(error: E)
}

/** Integer helpers used by the size and geometry arithmetic. */
module Ints {

  function Min(a: int, b: int): int { if a < b then a else b }

  function Max(a: int, b: int): int { if a < b then b else a }
}
