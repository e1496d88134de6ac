/** Optional values: a JavaScript property that may be `undefined`, or a
    result that may be missing. */
module Wrappers {

  datatype Option<+T> = None | Some(value: T)
}
