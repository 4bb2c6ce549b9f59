/** Helper datatypes shared by the other modules. */
module Wrappers {

  /** A value that may be absent: `None` stands for SQL/JSON `null`. */
  datatype Option<+T> = None | Some(value: T)

  /** Either a value or an error the caller can tell apart from other errors. */
  datatype Result<+R, +E> = Success(value: R) | Failure(error: E)
}
