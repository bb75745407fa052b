/** The optional value used wherever the JavaScript code tests a regex result or a state slot against null. */
module Wrappers {
  datatype Option<+T> = None | Some(value: T)
}
