/** Option, Result and the error outcomes that the backend's handlers raise. */
module Wrappers {

  datatype Option<+T> = None | Some(value: T) {
    function GetOr(default: T): T {
      match this
      case Some(v) => v
      case None => default
    }
  }

  /** The exceptions a handler or helper can end with. The HTTP status is given by Status(). */
  datatype Error =
    | BadRequest        // HTTPException 400
    | Forbidden         // HTTPException 403
    | NotFound          // HTTPException 404
    | Unprocessable     // request validation failure, 422
    | ValueError        // an uncaught Python ValueError
    | ServerError       // any other uncaught exception (answered with 500)
  {
    function Status(): (code: nat)
      ensures 400 <= code < 600
      ensures this == Forbidden <==> code == 403
      ensures this == NotFound <==> code == 404
      ensures this == BadRequest <==> code == 400
    {
      match this
      case BadRequest => 400
      case Forbidden => 403
      case NotFound => 404
      case Unprocessable => 422
      case ValueError => 500
      case ServerError => 500
    }
  }

  datatype Result<+T> = Ok(value: T) | Err(error: Error)
}
