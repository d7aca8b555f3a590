/** Optional values and error-or-value results, used for the source's
    `undefined`, `NaN` and thrown errors. */
module Wrappers {

  datatype Option<+T> = None | Some(value: T)

  /** A computation that either produced a value or threw an error with a message. */
  datatype Result<+T> = Ok(value: T) | Err(error: string)
}
