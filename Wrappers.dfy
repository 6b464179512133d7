/** The optional value used throughout the model: `None` stands for JavaScript's
    `null` or `undefined` where the source returns or stores "nothing". */
module Wrappers {

  datatype Option<+T> = None | Some(value: T)
}
