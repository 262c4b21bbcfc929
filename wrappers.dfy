/** Option and Result, the shapes of the source's `None` returns and raised exceptions. */
module Wrappers {

  datatype Option<+T> = None | Some(value: T) {
    function GetOr(default: T): T {
      match this
      case Some(v) => v
      case None => default
    }
  }

  /** The exceptions the modelled code raises or reports, by kind. */
  datatype Error =
    | NameError(name: string)       // a name that is not bound when the code runs
    | TypeError(what: string)       // an operation applied to a value of the wrong shape
    | KeyError(key: string)         // a missing dictionary key
    | AttributeError(name: string)  // a method looked up on a value that lacks it
    | OSError(path: string)         // a file that cannot be opened or decoded
    | BackendError                  // the embedding model or the vector store raised

  datatype Result<+R> = Success(value: R) | Failure(error: Error)
}
