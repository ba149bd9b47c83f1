/** The optional value used wherever the source works with `null` or `undefined`. */
module Wrappers {

  datatype Option<+T> = None | Some(value: T)

}
