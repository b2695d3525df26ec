// Success, failure and absence: the model's stand-ins for Go's error results and nil pointers.
module Wrappers {
  datatype Option<+T> = None | Some(value: T)

  datatype Result<+T, +E> = Ok(value: T) | Err(error: E)
}
