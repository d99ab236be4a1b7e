/** The conventional optional-value datatype, used for a regular-expression
    match that may fail and for a property that may be undefined. */
module Wrappers {

  datatype Option<+T> = None | Some(value: T)
}
