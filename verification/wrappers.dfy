/** Optional values, used for absent prototype links and for operations that
    throw a TypeError in the original program. */
module Wrappers {

  datatype Option<+T> = None | Some(value: T)
}
