/** Optional values, used wherever the source returns nil or a (value, ok) pair. */
module Wrappers {
  datatype Option<+T> = None | Some(value: T)
}
