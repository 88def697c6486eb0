/** Optional values: an absent field of a record, a failed lookup. */
module Wrappers {
  datatype Option<+T> = None | Some(value: T)
}
