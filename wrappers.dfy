/** The optional value used for lookups that can fail and for Python's `None`. */
module Wrappers {
  datatype Option<T> = None | Some(value: T)
}
