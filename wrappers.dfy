/** The optional-value datatype used throughout the model: `None` stands for
    JavaScript's `undefined`/`null`, or for `NaN` where a number was expected. */
module Wrappers {

  datatype Option<+T> = None | Some(value: T)
}
