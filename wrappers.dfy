/** Optional values, for JavaScript's `undefined` and Python's missing keys. */
module Wrappers {

  datatype Option<+T> = None | Some(value: T)
}
