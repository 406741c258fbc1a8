/** The optional value used for JavaScript's `undefined`/absent and for a parse that throws. */
module Wrappers {

  datatype Option<+T> = None | Some(value: T)

}
