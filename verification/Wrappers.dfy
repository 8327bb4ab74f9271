/** A value that may be absent: a missing row, an optional answer, or a call that raised. */
module Wrappers {
  datatype Option<T> = None | Some(value: T)
}
