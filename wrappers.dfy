/** A value that may be absent: an attribute that is not set, or a search that
    finds nothing. */
module Wrappers {
  datatype Option<T> = None | Some(value: T)
}
