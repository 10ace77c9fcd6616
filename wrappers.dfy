/** Optional values: an absent form field is None. */
module Wrappers {
  datatype Option<+T> = None | Some(value: T)
}
