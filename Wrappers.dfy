/** Option and Result values: a Java reference that may be null, and a call that may throw. */
module Wrappers {

  /** A value that may be absent (a nullable Java reference, an empty `Optional`). */
  datatype Option<+T> = None | Some(value: T)

  /** The outcome of a Java call: a returned value, or the exception it throws. */
  datatype Result<+R, +E> = Success(value: R) | Failure(error: E)
}

/** The exceptions the modelled Java code can raise, as values. */
module Errors {

  datatype Exception =
    | JwtException                   // the JWT parser rejected the token (signature, structure)
    | NullPointerException           // a claim that the code dereferences is absent
    | IncorrectResultSizeException   // a single-row repository lookup matched several rows
}
