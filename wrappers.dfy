/** Optional values: the TypeScript sources write them as `T | null` or `T | undefined`. */
module Wrappers {

  datatype Option<T> = None | Some(value: T)

}
