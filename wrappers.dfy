/** The Option type used for Rust's `Option<String>` and for partial decoders. */
module Wrappers {
  datatype Option<T> = None | Some(value: T)
}
