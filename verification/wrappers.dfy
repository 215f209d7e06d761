/** Failure-carrying wrappers shared by every module of the model:
    - Option<T> for JavaScript's `T | null | undefined`,
    - Fetch<T> for the outcome of one call to the repository-hosting API,
      where any thrown error (network, rate limit, not found, bad JSON) is
      collapsed into the single variant FetchFailed.
 */
module Wrappers {

  datatype Option<+T> = None | Some(value: T) {

    /** Returns the value in Some, or `default` when None */
    function GetOr(default: T): T {
      match this
      case Some(v) => v
      case None => default
    }
  }

  datatype Fetch<+T> = FetchFailed | Fetched(value: T)

  /** JavaScript truthiness of an optional string: `x || fallback`. */
  function OrElse(x: Option<string>, fallback: string): (r: string)
    ensures x.Some? && x.value != "" ==> r == x.value
    ensures x.None? || x.value == "" ==> r == fallback
  {
    match x
    case Some(v) => if v != "" then v else fallback
    case None => fallback
  }
}
