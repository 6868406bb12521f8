/** The optional-value datatype used for the nullable properties of the envelope. */
module Wrappers {

  /** A value that may be absent: the model of a C# `null` reference or an unset `T?`. */
  datatype Option<+T> = None | Some(value: T)
}
