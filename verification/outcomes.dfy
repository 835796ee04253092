/** Failure-carrying results shared by every operation of the directory engine.
    The web layer turns `InvalidArgument` into HTTP 400 and `NotFound` into
    HTTP 404; `Conflict` stands for the database refusing a duplicate row. */
module Outcomes {

  /** A value that may be absent, as a Python `None` or a missing query parameter. */
  datatype Option<+T> = None | Some(value: T) {

    /** The carried value, or `default` when there is none. */
    function GetOr(default: T): T {
      match this
      case Some(v) => v
      case None => default
    }
  }

  /** The error kinds the engine reports to its caller. */
  datatype Error = InvalidArgument | NotFound | Conflict

  /** Either a successful value or one of the engine's errors. */
  datatype Result<+T> = Ok(value: T) | Err(error: Error)
}
