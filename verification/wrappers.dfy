/** The optional-value datatype shared by the model: JavaScript's `null`
    (an unset coordinate, an empty state slot) is `None`. */
module Wrappers {

  datatype Option<+T> = None | Some(value: T)
}
