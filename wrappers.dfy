/** Optional values, results and the exceptions the services throw. */
module Wrappers {

  /** A Java reference that may be null. */
  datatype Option<+T> = None | Some(value: T)

  /** The exception classes the core throws, by name. */
  datatype Exception =
    | ResourceNotFound          // ResourceNotFoundException
    | IllegalArgument           // IllegalArgumentException
    | IllegalState              // IllegalStateException
    | IndexOutOfBounds          // IndexOutOfBoundsException from List.get
    | InvalidToken              // InvalidTokenException
    | ExpiredToken              // ExpiredTokenException
    | ResourceAlreadyExists     // ResourceAlreadyExistsException
    | Validation                // ValidationException
    | BadRequest                // BadRequestException
    | DuplicateResource         // DuplicateResourceException

  /** The value a method returns, or the exception it throws. */
  datatype Result<+T> = Ok(value: T) | Err(error: Exception)

  /** Completion of a method returning void: normally, or by throwing. */
  datatype Outcome = Pass | Fail(error: Exception)

  /** UUIDs are modelled as naturals: only equality between them matters. */
  type Uuid = nat
}
