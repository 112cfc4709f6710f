/** Failure-carrying datatypes shared by every module of the model. */
module Results {

  /** A value that may be absent: Python's `None` versus a present value. */
  datatype Option<+T> = None | Some(value: T)

  /** The outcome of an operation that may raise: `Ok` carries the value,
      `Err` carries a description of the exception. */
  datatype Result<+T, +E> = Ok(value: T) | Err(error: E)
}
