/** Small failure-carrying datatypes shared by the modules of the model. */
module Wrappers {

  /** A value that may be absent: Python's `None` versus a present value. */
  datatype Option<+T> = None | Some(value: T)

  /** What a call into code outside the model does: it returns a value or raises
      an exception whose `str(e)` is `message`. */
  datatype Outcome<+T> = Returned(value: T) | Raised(message: string)

  /** Either a value or a described error. */
  datatype Result<+T, +E> = Ok(value: T) | Err(error: E)
}
