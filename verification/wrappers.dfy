/** An optional value, used for the guest user id and for outcomes that may be absent. */
module Wrappers {

  datatype Option<+T> = None | Some(value: T)

}
