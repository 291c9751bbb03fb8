/** The optional value used where Go code reports "ok" alongside a value
    (a claim that may be missing, a request body that may fail to bind). */
module Wrappers {
  datatype Option<+T> = None | Some(value: T)
}
