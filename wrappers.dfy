/** An optional value, for recognizers that may not match and searches that may find nothing. */
module Wrappers {

  datatype Option<+T> = None | Some(value: T)

}
