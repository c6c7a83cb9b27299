/** Small result types shared by every module of the model. */
module Base {

  /** A value that may be absent: Python's `None` versus a present value. */
  datatype Option<T> = None | Some(value: T)

  /** The outcome of a computation that may raise: `Err` carries the exception text (`str(e)`). */
  datatype Result<T> = Ok(value: T) | Err(msg: string)
}
