/** The nullable value of the source (a reference that may be null). */
module Wrappers {

  datatype Option<+T> = None | Some(value: T)
}
