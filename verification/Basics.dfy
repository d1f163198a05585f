/** Values shared by every model: optional values and the outcome of a call that may fail. */
module Basics {
  datatype Option<+T> = None | Some(value: T)

  datatype Outcome = Ok | Err
}
