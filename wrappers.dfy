/** The optional value used throughout the model: `None` stands for JavaScript's
    `null`/`undefined` and for an operation that threw. */
module Wrappers {

  datatype Option<+T> = None | Some(value: T)
}
