/** The optional-value type used where the Go code returns a nil-able pointer. */
module Wrappers {

  datatype Option<+T> = None | Some(value: T)
}
