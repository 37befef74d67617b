/** Failure-compatible wrappers shared by every engine. */
module Wrappers {

  /** A value that may be missing; `None` also stands for a pandas NaN / NaT. */
  datatype Option<+T> = None | Some(value: T)

  /** What every tool returns: a summary, or the `{"error": message}` payload. */
  datatype Result<+T> = Ok(value: T) | Err(message: string)
}
