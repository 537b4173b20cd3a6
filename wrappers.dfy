/** Optional values, standing for Python's `None` and for absent results. */
module Wrappers {
  datatype Option<+T> = None | Some(value: T)
}
