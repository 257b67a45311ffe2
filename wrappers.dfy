/** The optional value the model uses wherever the source has `undefined`,
    `null` or a missing key. */
module Wrappers {
  datatype Option<+T> = None | Some(value: T)
}
