/** Rust's `Option`, the return type of `Error::cause` and the failure channel of `read_table`. */
module Wrappers {
  datatype Option<+T> = None | Some(value: T)
}
