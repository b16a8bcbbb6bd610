/** Optional values: a request field that may be absent, a row a query may not find. */
module Wrappers {
  datatype Option<+T> = None | Some(value: T)
}
