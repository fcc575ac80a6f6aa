/** Optional values: a lookup that may miss, or a table cell that may read "N/A". */
module Wrappers {

  datatype Option<+T> = None | Some(value: T)
}
