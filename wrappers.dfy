/** The optional value that models Rust's `Option`: a `None` that the source
    `unwrap`s is a panic of the program. */
module Wrappers {

  datatype Option<+T> = None | Some(value: T)
}
