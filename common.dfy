/** Types shared by the backend controllers and the client pages. */
module Common {

  datatype Option<+T> = None | Some(value: T)

  /** A document id. MongoDB ObjectIds travel as 24-digit hex strings, so an
      id is never the empty string and is always truthy in JavaScript. */
  type ObjectId = s: string | s != "" witness "0"

  /** JavaScript truthiness of an optional string field: `undefined` and
      the empty string are falsy, every other string is truthy. */
  predicate Truthy(s: Option<string>) {
    s.Some? && s.value != ""
  }

  /** The HTTP statuses the controllers answer with. */
  datatype Status = Ok | Created | BadRequest | Forbidden | NotFound | ServerError {
    function Code(): (c: int)
      ensures 200 <= c < 600
      ensures (200 <= c < 300) <==> (this == Ok || this == Created)
    {
      match this
      case Ok => 200
      case Created => 201
      case BadRequest => 400
      case Forbidden => 403
      case NotFound => 404
      case ServerError => 500
    }
  }
}
