/** The optional value used where the source has `undefined`, a falsy option or an absent key. */
module Wrappers {

  datatype Option<+T> = None | Some(value: T)
}
