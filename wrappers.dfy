/** Optional values, for lookups that may find nothing and coercions that may fail. */
module Wrappers {
  datatype Option<+T> = None | Some(value: T)
}
