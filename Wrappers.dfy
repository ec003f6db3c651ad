/** Optional values, standing for JavaScript's `undefined`/`null`/NaN and Python's `None`. */
module Wrappers {
  datatype Option<T> = None | Some(value: T)
}
