/** Optional values: the carousel's timer handle is either absent or one pending delay. */
module Wrappers {

  datatype Option<+T> = None | Some(value: T)
}
