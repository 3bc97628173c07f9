/** Optional values: `None` stands for a JavaScript `undefined` field or a SQL NULL. */
module Wrappers {
  datatype Option<+T> = None | Some(value: T)
}
