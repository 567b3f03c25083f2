/** An optional value: stands for JavaScript's `undefined` and for "no event". */
module Wrappers {

  datatype Option<+T> = None | Some(value: T)
}
