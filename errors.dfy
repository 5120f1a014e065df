/** The exceptions the core raises, as values, and the result of an operation that may raise one. */
module Errors {

  /** One rejected field of a request body, as the binding result reports it. */
  datatype FieldError = FieldError(field: string, message: string)

  datatype Failure =
    | ResourceNotFound(message: string)     // ResourceNotFoundException
    | Conflict(message: string)             // ConflictException
    | AccessDenied(message: string)         // AccessDeniedException raised by a service
    | AuthorizationDenied                   // a @PreAuthorize rule that did not hold
    | UsernameNotFound(message: string)     // UsernameNotFoundException
    | BadCredentials                        // BadCredentialsException at login
    | ArgumentNotValid(errors: seq<FieldError>)   // MethodArgumentNotValidException
    | Internal(message: string)             // any other exception

  /** Either the operation's value or the exception it raised. */
  datatype Result<+T> = Ok(value: T) | Err(failure: Failure)
}
