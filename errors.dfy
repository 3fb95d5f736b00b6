/** The exceptions the core throws, by class and message. */
module Errors {
  import opened Text

  /** The class of a thrown exception. `PlainError` and `RangeError` are
      JavaScript's `Error` and `RangeError`;
      the other three are the domain exception classes. */
  datatype Kind = PlainError | RangeError | DomainException | InvalidOperation | EntityNotFound

  datatype Exception = Exception(kind: Kind, message: string)

  // The messages of the member error codes.
  const INVALID_FULL_NAME := "Full name is required."
  const INVALID_CLASSIFICATION := "Classification must be communicant or non-communicant."
  const MISSING_COMMUNICANT_REQUIRED_FIELDS := "Missing required fields for communicant admission."
  const INVALID_BIRTH_DATE := "Invalid birth date."
  const INVALID_RECEPTION_DATE := "Invalid reception date."
  /** The member error codes define no INVALID_DELETE_CONFIRMATION entry, so
      the code reads as `undefined` and `new Error(undefined)` carries the
      empty message. */
  const INVALID_DELETE_CONFIRMATION := ""

  /** Stands for the hero invalid-name code; its text is not part of this model. */
  const HERO_INVALID_NAME := "HeroErrorCodes.INVALID_NAME"
  /** Stands for the email invalid-raw code; its text is not part of this model. */
  const EMAIL_INVALID_RAW := "EmailErrorCodes.INVALID_RAW"
  const INVALID_CPF := "INVALID_CPF"

  /** `new EntityNotFoundException(entity, id)`. */
  function NotFound(entity: string, id: string): Exception
  {
    Exception(EntityNotFound, entity + " not found: " + id)
  }

  function PlainErr(message: string): Exception
  {
    Exception(PlainError, message)
  }
}
