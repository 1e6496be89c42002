/** Option and Result: the possibly-missing value and the thrown-or-returned outcome. */
module Wrappers {

  datatype Option<+T> = None | Some(value: T)

  /** `Err` stands for a thrown `Error`, carrying its message. */
  datatype Result<+T, +E> = Ok(value: T) | Err(error: E)
}
