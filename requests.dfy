/** The settled result of one asynchronous request, as the reducers receive it. */
module Requests {
  import opened Wrappers

  /**
   * A request either succeeds with the server's payload or fails; on failure
   * `serverError` is the `error` field of the response body, if any.
   */
  datatype Outcome<T> = Fulfilled(payload: T) | Rejected(serverError: Option<string>)

  /** What a page's submit handler dispatches: a create with the form data, or an update of record `id`. */
  datatype Request<D> = CreateRequest(data: D) | UpdateRequest(id: int, data: D)

  /**
   * The message a rejected request carries: the server's `error` field when it
   * is a non-empty string, otherwise the fixed per-operation `fallback`
   * (JavaScript's `error.response?.data?.error || fallback`).
   */
  function RejectionMessage(serverError: Option<string>, fallback: string): (m: string)
    ensures serverError.Some? && serverError.value != "" ==> m == serverError.value
    ensures serverError == None || serverError == Some("") ==> m == fallback
    ensures fallback != "" ==> m != ""
  {
    match serverError
    case Some(e) => if e != "" then e else fallback
    case None => fallback
  }
}
