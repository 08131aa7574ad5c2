/** Small shared datatypes: optional values and HTTP responses. */
module Wrappers {

  /** A value that may be missing: a configuration key that is not set (or
      set to null), a query parameter that was not sent. */
  datatype Option<+T> = None | Some(value: T) {
    /** PHP's `$x ?? $default`. */
    function GetOr(default: T): T {
      match this
      case Some(v) => v
      case None => default
    }
  }
}

module Http {

  const OK: nat := 200
  const BAD_REQUEST: nat := 400

  /** What an endpoint finally answers: the last status line it set and the
      document it printed. */
  datatype Response<D> = Response(status: nat, document: D)
}
