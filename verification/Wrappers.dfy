/** Failure-free optional values, used wherever a column may be NULL or a lookup may find nothing. */
module Wrappers {

  datatype Option<+T> = None | Some(value: T)
}
