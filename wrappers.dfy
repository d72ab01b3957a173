/** Option and Result, the two failure-carrying shapes used across the model. */
module Wrappers {

  /** `None` stands for JavaScript's `undefined` (a missing property or header). */
  datatype Option<+T> = None | Some(value: T)

  /** `Err` stands for an exception: a failed upstream fetch or a `TypeError` while rendering. */
  datatype Result<+T> = Ok(value: T) | Err
}
