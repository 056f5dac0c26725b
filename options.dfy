/** Failure-compatible wrappers shared by every module of the ledger model. */
module Options {

  /** A value that may be absent (Python's None). */
  datatype Option<+T> = None | Some(value: T)

  /** A value or the reason it could not be produced. */
  datatype Result<+T, +E> = Ok(value: T) | Err(error: E)
}
