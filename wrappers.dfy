/** Optional values and success/failure results, standing in for Kotlin's
    nullable types and for exceptions thrown by the app's operations. */
module Wrappers {

  datatype Option<+T> = None | Some(value: T) {
    /** Kotlin's elvis operator `x ?: default`. */
    function GetOr(default: T): T {
      match this
      case Some(v) => v
      case None => default
    }
  }

  datatype Result<+T, +E> = Success(value: T) | Failure(error: E)

  /** The outcome of a call into the remote document store or the
      authentication service: it either completes, or throws an exception
      whose (possibly null) message is opaque to the app. */
  datatype Link = Up | Down(message: Option<string>)

  /** How a suspending call that returns nothing ends: normally, or by
      throwing an exception with a (possibly null) message. */
  datatype Outcome = Done | Thrown(message: Option<string>)
}
