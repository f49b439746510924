/** Optional values: `null`/`undefined` in the app become `None`. */
module Wrappers {
  datatype Option<+T> = None | Some(value: T)
}
