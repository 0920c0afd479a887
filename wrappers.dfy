/** The nullable values of the session (`number | null`, `string | null`). */
module Wrappers {

  datatype Option<+T> = None | Some(value: T)
}
