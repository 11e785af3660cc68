/** Optional values and the value-or-error results that stand for Python's
    `None` and raised exceptions. */
module Outcomes {
  datatype Option<+T> = None | Some(value: T)

  datatype Result<+T, +E> = Ok(value: T) | Err(error: E)
}
