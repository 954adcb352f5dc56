/** The optional value used throughout the model: JavaScript's `undefined`
    (and, for nullable columns, `null`) is `None`. */
module Wrappers {

  datatype Option<T> = None | Some(value: T)

}
