/**
 A value that may be missing: what the source returns as a null pointer, or as a
 failure without a reason.
 */
module Wrappers {
  datatype Option<+T> = None | Some(value: T)
}
