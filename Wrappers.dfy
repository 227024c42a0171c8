/** The optional value used across the model: `None` stands for a JavaScript
    value that is absent, `null`, or an operation that throws. */
module Wrappers {

  datatype Option<+T> = None | Some(value: T)
}
