/** Optional values: PHP's `null` next to a real value. */
module Wrappers {

  datatype Option<+T> = None | Some(value: T)
}
