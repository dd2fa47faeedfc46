/** The optional value used where the source yields `undefined`/`NaN` for a missing key. */
module Wrappers {

  datatype Option<+T> = None | Some(value: T)
}
