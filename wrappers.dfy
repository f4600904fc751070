/** Optional values and error results shared by the modules of this project.
    `None` stands for JavaScript's `null`/`undefined` where the source tests
    for them, `Err` for a thrown exception. */
module Wrappers {

  datatype Option<+T> = None | Some(value: T) {
    function GetOr(default: T): T {
      match this
      case Some(v) => v
      case None => default
    }
  }

  /** The errors the modelled code can raise. `TypeError` is a property read
      on `undefined` or `null`; `InvalidAction` is the explicit
      `throw new Error('Invalid action type')`; `LibraryError` is an
      exception from a library call or a rejected request that the code
      awaits. */
  datatype Error = TypeError | InvalidAction | LibraryError

  datatype Result<+T> = Ok(value: T) | Err(error: Error)
}
