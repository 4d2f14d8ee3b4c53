/** Failure-carrying values used by every handler of the API. */
module Wrappers {

  /** A value that may be missing: an absent JSON field, a lookup that found nothing. */
  datatype Option<+T> = None | Some(value: T) {

    /** The value, or `default` when there is none (agrees with JavaScript's `x || ""` on a string). */
    function GetOr(default: T): T {
      if Some? then value else default
    }
  }

  /** A handler that answers with a value or with an error response. */
  datatype Result<+R, +E> = Success(value: R) | Failure(error: E)

  /** A handler whose success response carries no data (`{ success: true }`). */
  datatype Outcome<+E> = Pass | Fail(error: E)
}
