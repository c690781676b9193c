/** Optional values and results with an error, for Go's nil pointers and error returns. */
module Wrappers {
  datatype Option<+T> = None | Some(value: T)

  datatype Result<+T, +E> = Success(value: T) | Failure(error: E)

  /** Go visits a map in no particular order: the next key is any key that is left. */
  method Pick<T(==)>(left: set<T>) returns (x: T)
    requires left != {}
    ensures x in left
  {
    x :| x in left;
  }
}
