/** Small failure-carrying datatypes shared by the other modules. */
module Wrappers {

  /** A value that may be missing: Go's nil error or nil reply. */
  datatype Option<+T> = None | Some(value: T)

  /** A value or the text of the error that replaced it. */
  datatype Result<+T> = Ok(value: T) | Err(error: string)
}
