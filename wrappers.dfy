/** Optional values: JavaScript's `undefined` where a lookup can miss. */
module Wrappers {
  datatype Option<+T> = None | Some(value: T)
}
