/** Optional values, for nullable lookups. */
module Wrappers {
  datatype Option<+T> = None | Some(value: T)
}
