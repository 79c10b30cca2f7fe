/** The optional values the components express with `undefined`, `null` and optional chaining. */
module Wrappers {

  datatype Option<+T> = None | Some(value: T)
}
