/** The optional value the adapter returns where the TypeScript code returns `null`. */
module Wrappers {

  datatype Option<+T> = None | Some(value: T)
}
