/** Small helper datatypes shared by the other modules. */
module Wrappers {

  /** A value that may be missing; stands for a C pointer that may be NULL. */
  datatype Option<+T> = None | Some(value: T)
}
