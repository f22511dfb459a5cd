/** Optional values: a lookup that may find nothing, a path not chosen yet. */
module Wrappers {
  datatype Option<+T> = None | Some(value: T)
}
