/** Optional values: `None` stands where the dashboard sees JavaScript's `undefined` or `null`. */
module Wrappers {

  datatype Option<+T> = None | Some(value: T)

}
