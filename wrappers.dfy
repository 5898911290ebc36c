/** Optional values: the source's `null` for "no beverage selected". */
module Wrappers {
  datatype Option<+T> = None | Some(value: T)
}
