/** Optional values, for the nullable columns and early returns of the source. */
module Wrappers {
  datatype Option<+T> = None | Some(value: T)
}
