/** The optional value used wherever the browser or the request hands back "nothing". */
module Wrappers {
  datatype Option<+T> = None | Some(value: T)
}
