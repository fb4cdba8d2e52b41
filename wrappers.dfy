/** Optional values: a configuration field that may be unset. */
module Wrappers {

  datatype Option<+T> = None | Some(value: T)
}
