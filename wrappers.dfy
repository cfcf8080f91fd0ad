/** The optional value used throughout the model for values that JavaScript writes as
    `undefined`, `null` or `NaN`. */
module Wrappers {

  datatype Option<+T> = None | Some(value: T)
}
