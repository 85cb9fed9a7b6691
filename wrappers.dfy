/** An optional value; `None` stands for a JavaScript number that is not finite. */
module Wrappers {

  datatype Option<+T> = None | Some(value: T)
}
