/** Optional values: a JavaScript value that may be `null`/`undefined`, or an
    operation outcome that may carry an error message. */
module Wrappers {

  datatype Option<+T> = None | Some(value: T)
}
