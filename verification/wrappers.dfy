/** Option and Result values used where the hosting code reports an absent
    value, an error message or a rejected completion. */
module Wrappers {

  datatype Option<+T> = None | Some(value: T)

  datatype Result<+R, +E> = Success(value: R) | Failure(error: E)
}
