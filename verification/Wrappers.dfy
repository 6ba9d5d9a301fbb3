/** Stock types shared by every module. */
module Wrappers {
  datatype Option<+T> = None | Some(value: T) {
    /** The value inside, or the given default. */
    function GetOr(default: T): T {
      if Some? then value else default
    }
  }

  datatype Result<+T, +E> = Ok(value: T) | Err(error: E)
}
