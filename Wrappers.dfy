/** Option and Result values used for JavaScript's `undefined`/`null` and for thrown errors. */
module Wrappers {

  /** `None` stands for an absent value (`undefined` or `null` in the source). */
  datatype Option<+T> = None | Some(value: T)

  /** `Err` stands for an exception thrown or a promise rejected in the source. */
  datatype Result<+T, +E> = Ok(value: T) | Err(error: E)
}
