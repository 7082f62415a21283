/** Failure-carrying results: Python exceptions and numpy's not-a-number outcomes
    are modelled as `None` or `Err` rather than excluded by preconditions. */
module Wrappers {
  datatype Option<+T> = None | Some(value: T)

  datatype Result<+T, +E> = Ok(value: T) | Err(error: E)
}
