/** Optional values: a C pointer that may be NULL, an attribute that may be absent. */
module Wrappers {

  datatype Option<+T> = None | Some(value: T)
}
