/** Option and Result, the two failure-carrying datatypes the model uses
    for JavaScript's undefined-or-value and for Python's raised errors. */
module Wrappers {

  datatype Option<+T> = None | Some(value: T)

  datatype Result<+R, +E> = Ok(value: R) | Err(error: E)
}
