/** Failure-carrying results shared by the handlers and pages. */
module Wrappers {

  datatype Option<+T> = None | Some(value: T)

  /** An HTTP handler's outcome: a value, or a status code with the error text
      that the handler puts in its JSON body. */
  datatype Result<+T> = Ok(value: T) | Err(status: int, message: string)
}
