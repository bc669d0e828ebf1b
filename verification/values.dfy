/** Values shared by every part of the model: optional request fields,
    JavaScript's truthiness test on string fields, and the status-coded
    responses that the route handlers return. */
module Values {

  /** A request or record field that may be absent (`undefined` / `null`). */
  datatype Option<+T> = None | Some(value: T)

  /** JavaScript truthiness of an optional string: present and non-empty.
      This is what `if (!x)` and `x || y` test on the string fields. */
  predicate Filled(o: Option<string>) {
    o.Some? && o.value != ""
  }

  /** A JSON response of a route handler: a success body with its HTTP status,
      or an `{ error }` object with its HTTP status. */
  datatype Response<+T> = Ok(status: int, body: T) | Fail(status: int, error: string) {

    /** Client-side `response.ok`: status in 200..299. */
    predicate IsOk() {
      200 <= status < 300
    }
  }
}
