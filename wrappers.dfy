/** The optional value the widget's initialiser receives from browser storage. */
module Wrappers {

  datatype Option<+T> = None | Some(value: T)
}
