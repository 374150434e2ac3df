/** Optional values and results, used wherever Go returns a value together with an error. */
module Outcomes {

  /** A value that may be missing. */
  datatype Option<+T> = None | Some(value: T)

  /** Either a value or an error; Go's `(v, err)` pairs where exactly one side is meaningful. */
  datatype Result<+T, +E> = Ok(value: T) | Fail(error: E)
}
