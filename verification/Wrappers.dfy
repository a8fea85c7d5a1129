/** Optional values, used wherever the program returns an `Option` or drops the payload of an error. */
module Wrappers {

  datatype Option<+T> = None | Some(value: T)
}
