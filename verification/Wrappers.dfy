/** A value that may be missing: a nil pointer, a failed match, a row that is not there. */
module Wrappers {
  datatype Option<T> = None | Some(value: T)
}
