/** Failure-carrying result types shared by the other modules. */
module Wrappers {

  /** A value that may be absent: an argument that was not given, or an
      integer conversion that failed. */
  datatype Option<+T> = None | Some(value: T)

  /** Either a value or the error that prevented computing it. */
  datatype Result<+T, +E> = Ok(value: T) | Err(error: E)
}
