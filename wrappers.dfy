/** An optional value, used where the script works with `null` or `undefined`. */
module Wrappers {

  /** `None` stands for JavaScript's `null` / `undefined`. */
  datatype Option<+T> = None | Some(value: T)
}
