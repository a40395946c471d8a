/** The optional value used for the C library's "not found" results. */
module Wrappers {
  datatype Option<+T> = None | Some(value: T)
}
