/** Optional values: a C pointer that may be NULL, an optional option argument. */
module Wrappers {

  datatype Option<+T> = None | Some(value: T)
}
