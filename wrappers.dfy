/** Optional values, used for lookups that may find nothing and inserts that may be refused. */
module Wrappers {

  datatype Option<+T> = None | Some(value: T)
}
