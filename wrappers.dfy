/** Optional values and fallible results, as the Rust `Option` and `Result` types. */
module Wrappers {
  datatype Option<T> = None | Some(value: T)

  datatype Result<T, E> = Ok(value: T) | Err(error: E)
}
