/** The optional-value and result types the rest of the model is written with:
    Option stands for a Java reference that may be null (or an Optional),
    Result for an operation that may throw. */
module Wrappers {

  datatype Option<+T> = None | Some(value: T)

  datatype Result<+R, +E> = Ok(value: R) | Err(error: E)
}
