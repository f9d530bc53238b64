/**
 * Values shared by the server-side models: optional request fields, the
 * timestamps the handlers read from the clock, and the JSON replies the
 * Express handlers send back.
 */
module Api {

  /** An optional value: `None` stands for a field that is `undefined`. */
  datatype Option<+T> = None | Some(value: T)

  /** A point in time (milliseconds since the epoch, as `Date.now()` gives). */
  type Time = int

  /**
   * The reply a handler sends: the HTTP status code is fixed by the variant,
   * the body is either the returned document(s) or `{ message }`.
   */
  datatype Response<+T> =
    | Ok(value: T)              // 200
    | Created(value: T)         // 201
    | BadRequest(message: string)   // 400
    | NotFound(message: string)     // 404
    | ServerError(message: string)  // 500, from the handler's catch block
  {
    function Code(): (c: int)
      ensures 200 <= c < 600
      ensures c < 300 <==> (Ok? || Created?)
    {
      match this
      case Ok(_) => 200
      case Created(_) => 201
      case BadRequest(_) => 400
      case NotFound(_) => 404
      case ServerError(_) => 500
    }
  }

  /** JavaScript truthiness of an optional string field: `undefined` and `""` are falsy. */
  predicate Truthy(s: Option<string>)
  {
    s.Some? && s.value != ""
  }
}
