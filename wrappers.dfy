/** Optional values, used for nullable columns, missing dictionary keys and failed parses. */
module Wrappers {

  datatype Option<+T> = None | Some(value: T)
}
