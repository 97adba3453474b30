/** Option and Result, standing for Java's nullable references and for
    operations that either return a value or raise an error. */
module Wrappers {

  /** `None` stands for JavaScript's `null`/`undefined` or Java's `null`. */
  datatype Option<+T> = None | Some(value: T)

  /** `Failure` carries what the source would throw or report. */
  datatype Result<+R, +E> = Success(value: R) | Failure(error: E)
}
