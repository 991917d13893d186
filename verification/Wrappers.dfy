/** What all modules pass around: optional values, results or errors, and digests. */
module Wrappers {
  datatype Option<+T> = None | Some(value: T)

  datatype Result<+T, +E> = Ok(value: T) | Err(error: E)

  /** A SHA-256 digest is the number its 64 lower-case hex digits denote: string order is number order. */
  type Digest = nat
}
