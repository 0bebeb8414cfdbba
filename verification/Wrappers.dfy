/** Option and outcome datatypes shared by every module. */
module Wrappers {
  datatype Option<+T> = None | Some(value: T)

  /** What a Go call may do: return a value, return an error, or panic. */
  datatype Outcome<+T> = Ok(result: T) | Err | Panic
}
