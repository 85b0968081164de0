/** The two-case datatypes shared by the models. */
module Wrappers {

  /** Stands for a pointer that may be NULL. */
  datatype Option<+T> = None | Some(value: T)
}
