/** The HTTP-facing values the handlers produce, and the storage error they receive. */
module Http {

  /** The axum `StatusCode`s the handlers use. */
  datatype StatusCode = OK | Created | BadRequest | NotFound | Conflict | InternalServerError {
    function Code(): nat {
      match this
      case OK => 200
      case Created => 201
      case BadRequest => 400
      case NotFound => 404
      case Conflict => 409
      case InternalServerError => 500
    }
  }

  /** A status code with the `status` and `message` members of the JSON body. Record payloads
      (`filter_db_record`) are not part of the model. */
  datatype Reply = Reply(code: StatusCode, status: string, message: string)

  /** An `sqlx::Error`, seen through its two renderings: `to_string()` and `format!("{:?}", e)`. */
  datatype DbError = DbError(display: string, debug: string)
}
