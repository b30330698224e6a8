/** Optional values, results, and the errors the client throws. */
module Prelude {

  datatype Option<+T> = None | Some(value: T)

  /** The exceptions the client raises, by class.  `HTTPError` and `AuthError`
      carry the status code they were given, which is `None` when the throw
      site passes no code. */
  datatype Error =
    | BaseAO3Error(message: string)
    | HTTPError(code: Option<int>)
    | AuthError(code: Option<int>)
    | PlainError(message: string)
      // a JavaScript TypeError: reading a property of undefined or null, or
      // calling something that is not a function
    | TypeError
      // a JavaScript ReferenceError: use of an identifier that is not declared
    | ReferenceError(name: string)

  datatype Result<+T> = Ok(value: T) | Err(error: Error)

  datatype Outcome = Pass | Fail(error: Error)

  function OutcomeOf<T>(r: Result<T>): Outcome
  {
    match r
    case Ok(_) => Pass
    case Err(e) => Fail(e)
  }
}
