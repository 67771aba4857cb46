/** Failure-carrying results shared by the model, and the Python exceptions
    that the modelled code can raise. */
module Wrappers {

  datatype Option<+T> = None | Some(value: T)

  datatype Result<+R, +E> = Ok(value: R) | Err(error: E)

  /** The outcome of an operation that returns nothing but may raise. */
  datatype Outcome<+E> = Pass | Fail(error: E)

  /** The Python exceptions raised by the modelled code.  Messages are kept
      where the source spells them out. */
  datatype PyError =
    | KeyError
    | IndexError
    | AttributeError
    | ValueError(msg: string)
}
