/** Option and Result, the failure-carrying values used across the model. */
module Wrappers {

  /** `None` also stands for JavaScript's `undefined` where an optional value is modelled. */
  datatype Option<+T> = None | Some(value: T)

  /** A callback's `(err, result)` pair when exactly one of the two is meaningful. */
  datatype Result<+T> = Ok(value: T) | Err(error: string)
}
