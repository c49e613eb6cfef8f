/**
 * Option and Result, the two wrappers every other module uses for absent values
 * and failures, and `Dynamic`, the values that travel in Go's `any`.
 */
module Wrappers {
  datatype Option<+T> = None | Some(value: T)

  datatype Result<+T, +E> = Ok(value: T) | Err(error: E)

  /** A value of Go's `any` type, as far as the code here inspects it. */
  datatype Dynamic = DString(s: string) | DInt(i: int) | DBool(b: bool) | DOther(description: string)
}
