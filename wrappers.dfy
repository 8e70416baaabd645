/** Optional values: JavaScript's `undefined`/absent fields and `null` results. */
module Wrappers {
  datatype Option<+T> = None | Some(value: T)
}
