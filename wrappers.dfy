/** Option and error-carrying result types shared by the resolvers. */
module Wrappers {

  /** A value that may be absent. */
  datatype Option<+T> = None | Some(value: T)

  /** The (value, error) pair a Go function returns: an error is carried by its message. */
  datatype Result<+T> = Ok(value: T) | Err(error: string)
}
