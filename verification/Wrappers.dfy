/** Small types shared by every module of the model. */
module Wrappers {
  /** A value that may be absent: a null pointer, a failed conversion, an exception. */
  datatype Option<+T> = None | Some(value: T)
}
