/** Optional values and results with an error, used for Java's null returns and exceptions. */
module Wrappers {

  datatype Option<T> = None | Some(value: T)

  /** The exceptions the modelled code can throw, by their Java or Python class. */
  datatype Error =
    | IllegalArgument(msg: string)
    | NumberFormat(msg: string)
    | IndexOutOfBounds(msg: string)
    | NullPointer(msg: string)
    | KeyError(msg: string)
    | ZeroDivision(msg: string)
    | UnboundLocal(msg: string)
    | EndOfFile(msg: string)
    | ValueError(msg: string)
    | SystemExit(msg: string)
    | NegativeArraySize(msg: string)
    | ClassCast(msg: string)
    | Runtime(msg: string)
    | NotStrictlyPositive(msg: string)

  datatype Result<T> = Ok(value: T) | Err(error: Error)
}
