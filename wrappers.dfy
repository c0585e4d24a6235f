/** Option and Result, the two shapes the macro's helpers return
    (Rust's `Option<T>` and `syn::Result<T>`). */
module Wrappers {

  datatype Option<+T> = None | Some(value: T)

  datatype Result<+T, +E> = Success(value: T) | Failure(error: E)
}
