/**
 * Values shared by every page of the client: an option type, the settled
 * result of an API call, and the toast notifications the pages raise.
 */
module Common {

  datatype Option<+T> = None | Some(value: T)

  /**
   * How an awaited axios call settles: `Ok` with `response.data`, or
   * `Failed` carrying `error.response?.data` (None when the rejection has no
   * response body, e.g. a transport error).
   */
  datatype Response<+T> = Ok(data: T) | Failed(body: Option<string>)

  /** A toast raised with `toast.success(text)` or `toast.error(text)`. */
  datatype Toast = Success(text: string) | Error(text: string)

  /**
   * `error.response?.data || fallback`: JavaScript's `||` falls back when the
   * body is missing and also when it is the empty (falsy) string.
   */
  function FailureText(body: Option<string>, fallback: string): (r: string)
    ensures r == fallback || (body.Some? && r == body.value)
    ensures r != "" ==> r == fallback || r == body.value
    ensures body.Some? && body.value != "" ==> r == body.value
    ensures body.None? || body.value == "" ==> r == fallback
  {
    match body
    case Some(data) => if data != "" then data else fallback
    case None => fallback
  }
}
