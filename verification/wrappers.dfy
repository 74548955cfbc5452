/** Optional values: a field of the request body that may be absent. */
module Wrappers {

  datatype Option<+T> = None | Some(value: T)
}
