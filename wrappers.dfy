/** Failure-compatible result types shared by the model. */
module Wrappers {

  datatype Option<+T> = None | Some(value: T)

  /** The Python exceptions the modelled code can raise on its own. */
  datatype PyError =
    | IndexError          // an index out of range
    | KeyError(key: string) // reading a dictionary key that is absent

  datatype Result<+R> = Success(value: R) | Failure(error: PyError)
}
