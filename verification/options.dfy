/** Option and Result, the shapes the source gets from Rust's `Option` and `io::Result`. */
module Options {

  datatype Option<+T> = None | Some(value: T)

  datatype Result<+T, +E> = Ok(value: T) | Err(error: E)
}
