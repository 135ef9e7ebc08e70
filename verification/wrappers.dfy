/** The optional value used for Go's nil-able slices and error results. */
module Wrappers {
  datatype Option<+T> = None | Some(value: T)
}
