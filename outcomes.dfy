/** Optional values and success/failure results shared by the scheduling engine. */
module Outcomes {

  /** A value that may be absent: a missing store row, an unset request field. */
  datatype Option<+T> = None | Some(value: T)

  /** The outcome of an engine operation: a value, or the reason it was refused. */
  datatype Result<+T, +E> = Ok(value: T) | Err(error: E)
}
