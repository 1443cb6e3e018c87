/** Optional values: `None` stands for JavaScript's `undefined` and `null`
    wherever the modelled code produces or tests for them. */
module Wrappers {

  datatype Option<+T> = None | Some(value: T)
}
