/** Optional values and results with an error value, used for absent fields,
    NaN-free numbers and rejected commands. */
module Wrappers {

  datatype Option<+T> = None | Some(value: T)

  datatype Result<+R, +E> = Success(value: R) | Failure(error: E)
}
