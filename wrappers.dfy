/** Option, the usual value-or-nothing wrapper. */
module Wrappers {

  datatype Option<+T> = None | Some(value: T)

}
