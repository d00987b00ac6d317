/** The optional values and the failure-or-value results used throughout the model. */
module Wrappers {

  /** JavaScript's `T | undefined`: an absent route field, or a key with no entry. */
  datatype Option<+T> = None | Some(value: T)

  /** A value, or the failure (a rejected promise, a thrown exception) that replaces it. */
  datatype Result<+T, +E> = Ok(value: T) | Err(error: E)

}
