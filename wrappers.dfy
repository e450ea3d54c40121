/** The optional value used for regular-expression matches that may fail and for absent fields. */
module Wrappers {

  datatype Option<+T> = None | Some(value: T)
}
