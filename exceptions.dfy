/** Translation of storage-layer integrity errors into API errors
    (resources_api/exceptions.py). */
module Exceptions {
  import opened Wrappers

  /** PostgreSQL SQLSTATE codes of the two constraint violations reported as validation errors. */
  const UniqueViolation: string := "23505"
  const NotNullViolation: string := "23502"

  /** The database driver's error behind an IntegrityError: its SQLSTATE code, when it has one,
      and the server's message. */
  datatype PgError = PgError(pgcode: Option<string>, pgerror: string)

  /** The API errors this project raises or produces. `field` names the request field a
      validation error is attached to, when there is one. */
  datatype ApiException =
    | ServerError
    | ValidationError(field: Option<string>, message: string)
    | PermissionDenied(message: string)
    | NotFound

  /** An exception reaching the handler: an integrity error with its cause (absent, or any
      object without a SQLSTATE code, when the error was not raised by the driver), an API
      error, or anything else. */
  datatype Raised =
    | IntegrityError(cause: Option<PgError>)
    | Api(api: ApiException)
    | Other(kind: string)

  /** HTTP status of each API error. */
  function StatusCode(e: ApiException): nat
  {
    match e
    case ServerError => 500
    case ValidationError(_, _) => 400
    case PermissionDenied(_) => 403
    case NotFound => 404
  }

  /** The cause carries one of the two constraint-violation codes. */
  predicate IsConstraintViolation(cause: Option<PgError>)
  {
    cause.Some? && cause.value.pgcode.Some?
    && (cause.value.pgcode.value == UniqueViolation || cause.value.pgcode.value == NotNullViolation)
  }

  /** get_api_exception_by_psycopg_exception: a unique or not-null violation becomes a
      validation error carrying the database message; anything else, including a cause with
      no code, becomes a generic server error. */
  function ApiExceptionFor(cause: Option<PgError>): (r: ApiException)
    ensures r.ServerError? || r.ValidationError?
    ensures r.ValidationError? <==> IsConstraintViolation(cause)
    ensures r.ValidationError? ==> r.field.None? && r.message == cause.value.pgerror
    ensures StatusCode(r) == if IsConstraintViolation(cause) then 400 else 500
  {
    if cause.None? || cause.value.pgcode.None? then ServerError
    else if cause.value.pgcode.value in {UniqueViolation, NotNullViolation} then
      ValidationError(None, cause.value.pgerror)
    else ServerError
  }

  /** handle_exception: an integrity error is replaced by the API error its cause maps to;
      every other exception reaches the framework's handler unchanged. */
  function HandleException(exc: Raised): (r: Raised)
    ensures !r.IntegrityError?
    ensures exc.IntegrityError? ==> r.Api? && r.api == ApiExceptionFor(exc.cause)
    ensures !exc.IntegrityError? ==> r == exc
  {
    if exc.IntegrityError? then Api(ApiExceptionFor(exc.cause)) else exc
  }
}
