/** The optional value used wherever the source has a nullable reference
    (a Swift optional, a JavaScript null/undefined, a Java null). */
module Wrappers {

  datatype Option<+T> = None | Some(value: T)
}
