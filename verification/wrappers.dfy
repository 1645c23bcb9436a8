/** An optional value: a field of a payload that may be null or undefined. */
module Wrappers {

  datatype Option<+T> = None | Some(value: T)
}
