/** Option and Result values shared by every module of the model. */
module Wrappers {

  datatype Option<+T> = None | Some(value: T) {
    function GetOr(default: T): T {
      match this
      case Some(v) => v
      case None => default
    }
  }

  /** The Python exceptions the modelled code raises or lets escape. */
  datatype PyError =
    | ValueError(message: string)
    | TypeError
    | IndexError
    | KeyError(key: string)
    | AttributeError(name: string)
    | RuntimeError(message: string)
    | OverflowError

  datatype Result<+T> = Ok(value: T) | Err(error: PyError) {
    predicate IsFailure() { Err? }
    function PropagateFailure<U>(): Result<U>
      requires Err?
    {
      Err(error)
    }
    function Extract(): T
      requires Ok?
    {
      value
    }
  }
}
