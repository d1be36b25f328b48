/** The JavaScript `null`/`undefined` of the page script, as an optional value. */
module Wrappers {
  datatype Option<+T> = None | Some(value: T)
}
