/** Types shared by the models of several packages. */
module Wrappers {
  datatype Option<+T> = None | Some(value: T)
}
