/** Optional values, used for regular-expression submatches and single-row lookups. */
module Wrappers {

  datatype Option<+T> = None | Some(value: T)
}
