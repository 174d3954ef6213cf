/** The optional value the app's JavaScript writes as `null` or a present value. */
module Wrappers {

  datatype Option<+T> = None | Some(value: T)
}
