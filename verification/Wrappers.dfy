module Wrappers {
  datatype Option<+T> = None | Some(value: T)

  /** A panic or an error return of the program, with the place it comes from. */
  datatype Result<+T> = Ok(value: T) | Err(reason: string)
}
