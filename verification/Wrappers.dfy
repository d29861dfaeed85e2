/** Optional values, as the nullable columns and optional message fields of the system use them. */
module Wrappers {

  datatype Option<+T> = None | Some(value: T)
}
