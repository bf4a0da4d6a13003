/** The optional value used for Python's and TypeScript's "value or nothing". */
module Wrappers {

  datatype Option<+T> = None | Some(value: T)

}
