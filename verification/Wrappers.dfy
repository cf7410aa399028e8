/** The optional value shared by every module, in place of Go's nil error or (value, ok) pair. */
module Wrappers {
  datatype Option<+T> = None | Some(value: T)
}
