/** Optional values: Go's nil-able results (a nil error, a nil slice). */
module Wrappers {

  datatype Option<+T> = None | Some(value: T)
}
