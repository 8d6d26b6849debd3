/** The optional value used wherever the PHP code returns or compares against `null`. */
module Wrappers {

  datatype Option<+T> = None | Some(value: T)
}
