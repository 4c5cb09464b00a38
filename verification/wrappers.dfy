/** Absent values and failing calls. */
module Wrappers {

  /** A value that may be missing: a lookup that returns `undefined`, or a
      field that an insert or a partial update leaves out. */
  datatype Option<+T> = None | Some(value: T)

  /** The outcome of a call that either returns a value or throws. */
  datatype Result<+T, +E> = Success(value: T) | Failure(error: E)
}
