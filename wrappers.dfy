/** The optional value used wherever the JavaScript code yields `undefined` or `null`. */
module Wrappers {

  datatype Option<+T> = None | Some(value: T)
}
