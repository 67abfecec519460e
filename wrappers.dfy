/** Small helper datatypes shared by the other modules. */
module Wrappers {

  /** An optional value: a possibly-null pointer or an absent attachment. */
  datatype Option<+T> = None | Some(value: T)
}
