/** The optional values used throughout: a missing field, a failed scan, a nil pointer. */
module Wrappers {
  datatype Option<+T> = None | Some(value: T)
}
