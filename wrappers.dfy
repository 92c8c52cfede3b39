/** Optional values and the success-or-message results of operations that
    throw in the original program. */
module Wrappers {
  datatype Option<T> = None | Some(value: T)

  datatype Result<T> = Ok(value: T) | Err(message: string)
}
