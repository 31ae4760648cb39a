/** Optional values: the model's rendering of JavaScript's `null`/`undefined`,
    of Python's `None` and of a nullable database column. */
module Wrappers {

  datatype Option<+T> = None | Some(value: T)
}
