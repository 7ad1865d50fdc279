/** A minimal Option, used where the browser code would produce `undefined`. */
module Wrappers {

  datatype Option<+T> = None | Some(value: T)
}
