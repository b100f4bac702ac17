/** Optional values: `None` stands for Python's `None` result, or for an
    exception the modelled code raises instead of returning. */
module Wrappers {
  datatype Option<+T> = None | Some(value: T)
}
