/** Types and constants shared by every part of the model. */
module Common {

  /** An optional value: a field or request parameter that may be absent. */
  datatype Option<+T> = None | Some(value: T) {
    function GetOr(default: T): T {
      match this
      case Some(v) => v
      case None => default
    }
  }

  /** Document identifiers (MongoDB ObjectIds) are opaque; the model draws them from a counter. */
  type Id = nat

  // HTTP status codes the controllers answer with.
  const OK: int := 200
  const CREATED: int := 201
  const BAD_REQUEST: int := 400
  const UNAUTHORIZED: int := 401
  const FORBIDDEN: int := 403
  const NOT_FOUND: int := 404
  const SERVER_ERROR: int := 500
}
