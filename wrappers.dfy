/** Option and Result values shared by every module of the model. */
module Wrappers {
  datatype Option<T> = None | Some(value: T)

  /** The outcome of an operation that the source either returns from or
      throws out of; `Err` carries the error message the source uses. */
  datatype Result<T> = Ok(value: T) | Err(msg: string)
  {
    predicate IsFailure() { Err? }
  }
}
