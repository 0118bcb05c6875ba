/** The optional value that the accessors of the error taxonomy return
    (Rust's `Option`). */
module Wrappers {

  datatype Option<+T> = None | Some(value: T)
}
