/** Optional values, as the source's nullable lookups (`first()`, `find()`) return them. */
module Wrappers {

  datatype Option<+T> = None | Some(value: T)
}
