/** Optional values and failable results, shared by the other modules. */
module Wrappers {

  /** Swift's `T?`: a value or `nil`. */
  datatype Option<+T> = None | Some(value: T) {

    predicate IsFailure() {
      None?
    }

    function PropagateFailure<U>(): Option<U>
      requires None?
    {
      None
    }

    function Extract(): T
      requires Some?
    {
      value
    }
  }

  /** The outcome of a Swift `throws` function: a value, or the error thrown. */
  datatype Result<+R, +E> = Success(value: R) | Failure(error: E)
}
