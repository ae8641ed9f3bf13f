/** Optional values, used wherever the Go code has a value that may be nil. */
module Wrappers {

  /** `None` stands for Go's nil pointer, nil map or nil error. */
  datatype Option<+T> = None | Some(value: T)
}
