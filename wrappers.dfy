/** A value that may be absent: Kotlin's nullable types (`Int?`, `String?`, `IBandEntity?`). */
module Wrappers {

  datatype Option<+T> = None | Some(value: T)

}
