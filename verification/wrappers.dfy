/** An optional value: `Some(v)` when there is one, `None` when there is not.
    It carries the image generator's answer and the record a load cycle writes. */
module Wrappers {

  datatype Option<+T> = None | Some(value: T)
}
