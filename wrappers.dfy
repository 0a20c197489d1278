/** Option and Result, the two failure-carrying datatypes the model uses for
    C# nulls and for exceptions thrown by the source. */
module Wrappers {

  datatype Option<+T> = None | Some(value: T)

  /** The exceptions the modelled code throws, by .NET type and, where the
      source names one, by parameter. */
  datatype Error =
    | ArgumentNull(paramName: string)
    | NullReference
    | DuplicateKey(key: string)
    | IndexOutOfRange
    | ArgumentOutOfRange
    | FormatError
    | EmptyMask

  datatype Result<+T> = Success(value: T) | Failure(error: Error)
}
