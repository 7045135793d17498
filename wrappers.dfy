/** Small value types shared by the model. */
module Wrappers {

  /** A value that may be absent: Go's nil pointer or nil error. */
  datatype Option<+T> = None | Some(value: T)

  /** Go's `error` interface, reduced to the text its Error() method returns. */
  datatype Error = Error(message: string)
}
