/** Optional values and results that carry the text of a raised exception. */
module Outcomes {

  /** A value that may be absent (Python's `Optional`, or a dictionary key a node did not return). */
  datatype Option<T> = None | Some(value: T)

  /** The outcome of a call that may raise: `message` is what `str(e)` gives for the exception. */
  datatype Result<T> = Ok(value: T) | Err(message: string)
}
