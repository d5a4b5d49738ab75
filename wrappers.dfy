/** The optional value used where the tracer's source has a nullable reference. */
module Wrappers {
  datatype Option<+T> = None | Some(value: T)
}
