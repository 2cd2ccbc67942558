/** The two wrappers the crate uses for absent values and recoverable errors. */
module Wrappers {
  datatype Option<T> = None | Some(value: T) {
    /** The wrapped value, or `d` when there is none (`unwrap_or`). */
    function GetOr(d: T): T { if Some? then value else d }
  }

  /** `Ok` / `Err` of a fallible operation. */
  datatype Result<T, E> = Ok(value: T) | Err(error: E) {
    /** The value, dropping the error (`.ok()`). */
    function ToOption(): Option<T> { if Ok? then Some(value) else None }
  }
}
