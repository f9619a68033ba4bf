/** The optional value of the model: Python's `None` for a figure that is not defined. */
module Wrappers {

  datatype Option<+T> = None | Some(value: T)

}
