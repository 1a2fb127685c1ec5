/** Optional values: the source's `Option` cursors, and a server call that failed. */
module Wrappers {

  datatype Option<T> = None | Some(value: T)
}
