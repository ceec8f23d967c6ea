/** Option and Result, for the source's null/undefined values and its thrown errors. */
module Wrappers {

  datatype Option<+T> = None | Some(value: T)

  /** `Failure` carries what the source throws; `Success` what it returns. */
  datatype Result<+R, +E> = Success(value: R) | Failure(error: E)
}
