/** Optional values, shared by every model. */
module Wrappers {

  datatype Option<+T> = None | Some(value: T)
}
