/** Option and the outcome of a remote call. */
module Wrappers {

  /** A value that may be absent: `null` or `undefined` in the client. */
  datatype Option<+T> = None | Some(value: T) {
    function GetOr(default: T): T {
      match this
      case Some(v) => v
      case None => default
    }
  }

  /**
   * What a remote request to the hosted backend came back with. `Err(thrown)`
   * is the value the client code throws and catches: `Some(m)` when it is an
   * `Error` whose message is `m`, `None` when it is anything else.
   */
  datatype Outcome<+T> = Ok(value: T) | Err(thrown: Option<string>)
}
