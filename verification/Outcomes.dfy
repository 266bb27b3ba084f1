/** A value that may be missing. */
module Options {
  datatype Option<T> = None | Some(value: T)
}

/** What a call gives that may fail, with its error. */
module Results {
  datatype Result<V, E> = Ok(value: V) | Err(error: E)
}

/** The same where the error itself plays no part. */
module Attempts {
  datatype Attempt<T> = Ok(value: T) | Err
}

/** Powers of ten, the scale between amounts and units of a token (pkg/util/decimals.go). */
module Decimals {
  function Pow10(n: nat): (p: real)
    ensures p > 0.0
  {
    if n == 0 then 1.0 else 10.0 * Pow10(n - 1)
  }
}
