/** Failure-carrying results shared by the specifier codec and the repository helpers.

    Go reports trouble in two ways that the model keeps apart: a returned `error`
    value and a `panic`. Both end up in `Err`, and the `Error` constructor says which. */
module Wrappers {

  datatype Option<+T> = None | Some(value: T)

  /** Why an operation did not produce a value. */
  datatype Error =
    | Panic(reason: string)                // a Go panic carrying this string
    | Failure(text: string)                // an error built by errors.New or fmt.Errorf
    | SyntaxError(fn: string, num: string) // strconv's *NumError wrapping ErrSyntax

  datatype Result<+T> = Ok(value: T) | Err(error: Error)
}
