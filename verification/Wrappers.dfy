/** A value or none, as all modules use it. */
module Wrappers {
  datatype Option<T> = None | Some(value: T)
}
