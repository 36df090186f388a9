/** Small shared datatypes. */
module Wrappers {

  /** A value that may be absent: the JavaScript `null` of a failed lookup. */
  datatype Option<+T> = None | Some(value: T)
}
