/** Optional values: `None` stands for JavaScript's `null`/`undefined`,
    and for `NaN` where a number could not be parsed. */
module Wrappers {
  datatype Option<+T> = None | Some(value: T)
}
