/** The optional value of the JavaScript code: `null`, `undefined` or a callback that never fires
    become `None`. */
module Wrappers {
  datatype Option<+T> = None | Some(value: T)
}
