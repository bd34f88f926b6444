/** Optional values: a pandas cell that may be missing, a file that may be absent. */
module Wrappers {

  datatype Option<+T> = None | Some(value: T)
}
