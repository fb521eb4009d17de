/** Optional values: `None` stands for JavaScript's `undefined` / `NaN`. */
module Wrappers {

  datatype Option<+T> = None | Some(value: T)
}
