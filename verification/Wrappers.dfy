/** Success and absence, shared by every module. */
module Wrappers {

  datatype Option<+T> = None | Some(value: T)

  /** What a decoder returns: a value, or the reason it stopped. */
  datatype Result<+T, +E> = Ok(value: T) | Err(error: E)
}
