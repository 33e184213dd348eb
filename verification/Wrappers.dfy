/** Optional values and results, used wherever the Java sources use Optional, null or an exception. */
module Wrappers {

  datatype Option<+T> = None | Some(value: T)

  /** The single failure the client-address code knows: every rejection throws the same exception. */
  datatype Result<+T> = Success(value: T) | Failure
}
