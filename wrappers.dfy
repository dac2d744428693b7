/** The optional value the model uses wherever the source yields None, NaN or NaT,
    or raises an exception that a caller turns into a missing value. */
module Wrappers {

  datatype Option<+T> = None | Some(value: T)
}
