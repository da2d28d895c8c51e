/** The optional-value datatype used for TypeScript's optional fields and `undefined` results. */
module Wrappers {

  datatype Option<+T> = None | Some(value: T)
}
