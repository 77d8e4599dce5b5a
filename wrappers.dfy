/** Optional values: a missing token, an absent account, an undefined array slot. */
module Wrappers {
  datatype Option<+T> = None | Some(value: T)
}
