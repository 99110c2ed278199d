/** Optional values and success-or-error results, standing for Python's
    `None` and for a raised `ValueError` respectively. */
module Wrappers {

  datatype Option<+T> = None | Some(value: T)

  datatype Result<+R, +E> = Ok(value: R) | Err(error: E)
}
