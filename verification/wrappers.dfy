/** Small failure-carrying datatypes shared by the other modules. */
module Wrappers {

  /** An optional value: Python's `None` or a present value. */
  datatype Option<+T> = None | Some(value: T)

  /** The outcome of a step that may raise: `Err` carries the text of the
      exception, as `str(e)` would render it. */
  datatype Result<+T> = Ok(value: T) | Err(msg: string)
}
