/** Optional values and results shared by the store and its sessions. */
module Wrappers {

  /** An optional value: the store's "not found" answer is `None`, distinct from any stored value. */
  datatype Option<+T> = None | Some(value: T)

  /** The outcome of a state transition that may be refused: the new state or the error. */
  datatype Result<+R, +E> = Success(value: R) | Failure(error: E)
}
