/** Optional values, used for JavaScript `null` timestamps and PHP cache misses. */
module Wrappers {

  datatype Option<+T> = None | Some(value: T)
}
