/** Optional values: `None` stands for a Java `null` reference or a missing value. */
module Wrappers {

  datatype Option<+T> = None | Some(value: T)
}
