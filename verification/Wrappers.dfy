/** The two failure-carrying datatypes used across the model. */
module Wrappers {

  datatype Option<+T> = None | Some(value: T)

  /** An operation that either yields a value or reports an error (a `(v, err)` pair). */
  datatype Result<+T> = Ok(value: T) | Err
}
