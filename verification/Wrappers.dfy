/** Optional values: a TypeScript field or result that may be undefined. */
module Wrappers {

  datatype Option<+T> = None | Some(value: T)

}
