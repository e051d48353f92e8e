/** Optional values: a JavaScript `undefined`/`null` or a missing database row. */
module Wrappers {

  datatype Option<+T> = None | Some(value: T)
}
