/** Option and Result, the two failure-carrying shapes the Rust and TypeScript
    sources use (`Option<T>` / `T | null`, and `Result<T, E>`). */
module Wrappers {

  datatype Option<+T> = None | Some(value: T)

  datatype Result<+T, +E> = Ok(value: T) | Err(error: E)
}
