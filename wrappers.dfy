/** Optional values, as Rust's `Option`, and runs that may panic. */
module Wrappers {
  datatype Option<+T> = None | Some(value: T)

  /** The outcome of code that either returns a value or panics with a message. */
  datatype Run<+T> = Returns(value: T) | Panics(reason: string)
}
