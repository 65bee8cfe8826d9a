/** Optional values and results shared by the modules of the invoice model. */
module Options {

  /** A value that may be absent: Python's `None` next to a number. */
  datatype Option<+T> = None | Some(value: T)

  /** Either a value or the error the source raises instead. */
  datatype Result<+T, +E> = Ok(value: T) | Err(error: E)
}
