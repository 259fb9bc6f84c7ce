/** The optional value used wherever the Go code returns `(x, err)` and only the presence of an error matters. */
module Wrappers {
  datatype Option<+T> = None | Some(value: T)
}
