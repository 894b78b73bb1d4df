/** Optional values: JavaScript's `null`/`undefined` for a missing record field or session slot. */
module Wrappers {
  datatype Option<+T> = None | Some(value: T)
}
