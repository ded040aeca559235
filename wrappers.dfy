/** Optional values and results with an error message, for Python's `None`
    and for the exceptions the agents can raise. */
module Wrappers {

  datatype Option<+T> = None | Some(value: T)

  /** `Error(message)` stands for a Python exception carrying that message. */
  datatype Result<+T> = Ok(value: T) | Error(message: string)
}
