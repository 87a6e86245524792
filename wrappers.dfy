/** Optional values, used for the attributes the source initialises to None. */
module Wrappers {

  datatype Option<+T> = None | Some(value: T)
}
