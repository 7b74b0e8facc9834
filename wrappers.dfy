/** Optional values, used where Python raises ValueError and the caller catches it. */
module Wrappers {

  datatype Option<+T> = None | Some(value: T)
}
