/** The optional value used wherever the PHP code returns `null` or reads an unset environment variable. */
module Wrappers {

  datatype Option<+T> = None | Some(value: T)
}
