/** Optional values, standing for Python's `None` in the two applications' state. */
module Wrappers {
  datatype Option<T> = None | Some(value: T)
}
