/** Optional values, used where the source has `null` or a failed lookup. */
module Wrappers {

  datatype Option<+T> = None | Some(value: T)
}
