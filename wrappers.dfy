/** Optional values: a JavaScript `undefined`, a `null` result, or a file
    that is missing or cannot be parsed. */
module Wrappers {

  datatype Option<+T> = None | Some(value: T)
}
