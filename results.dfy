/** Values shared by the store and the services: optional values, the typed
    failures the services raise (each with its HTTP status code), and results. */
module Results {

  datatype Option<+T> = None | Some(value: T) {
    /** The carried value, or `default` when there is none (a JavaScript default parameter). */
    function GetOr(default: T): T
    {
      match this
      case Some(v) => v
      case None => default
    }
  }

  /** The error kinds of the services, named after the HTTP status each one carries. */
  datatype Failure = InvalidInput | Unauthorized | Forbidden | NotFound | Conflict | Internal {
    function Code(): nat
    {
      match this
      case InvalidInput => 400
      case Unauthorized => 401
      case Forbidden => 403
      case NotFound => 404
      case Conflict => 409
      case Internal => 500
    }
  }

  /** A service outcome: a value, or the failure that was thrown. */
  datatype Result<+T> = Ok(value: T) | Fail(failure: Failure)
}
