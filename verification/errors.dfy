/**
  The application's error taxonomy (the `AppError` hierarchy) and the error
  handlers that turn a raised error into a JSON body `{error, status}`.
*/
module Errors {
  import opened Base

  /** The subclasses of `AppError`. */
  datatype ErrorKind =
    | BadRequest     // BadRequestError
    | Unauthorized   // UnauthorizedError
    | Forbidden      // ForbiddenError
    | NotFound       // NotFoundError
    | Conflict       // ConflictError
    | RateLimited    // RateLimitError
    | OpenAIFailure  // OpenAIError

  /** An `AppError` carries the message and status code it was built with. */
  datatype AppError = AppError(message: string, statusCode: int)

  /** The status code a subclass hands to `AppError.__init__`. The kind can
      be read back from it: no two kinds share a code. */
  function StatusCode(k: ErrorKind): (code: int)
    ensures 400 <= code <= 500
    ensures KindOf(code) == Some(k)
  {
    match k
    case BadRequest => 400
    case Unauthorized => 401
    case Forbidden => 403
    case NotFound => 404
    case Conflict => 409
    case RateLimited => 429
    case OpenAIFailure => 500
  }

  /** The kind whose status code is `code`, if any. */
  function KindOf(code: int): Option<ErrorKind> {
    if code == 400 then Some(BadRequest)
    else if code == 401 then Some(Unauthorized)
    else if code == 403 then Some(Forbidden)
    else if code == 404 then Some(NotFound)
    else if code == 409 then Some(Conflict)
    else if code == 429 then Some(RateLimited)
    else if code == 500 then Some(OpenAIFailure)
    else None
  }

  /** The message a subclass uses when raised without one. */
  function DefaultMessage(k: ErrorKind): string {
    match k
    case BadRequest => "Bad request"
    case Unauthorized => "Missing or invalid token"
    case Forbidden => "Access denied"
    case NotFound => "Resource not found"
    case Conflict => "Resource already exists"
    case RateLimited => "Daily request limit reached"
    case OpenAIFailure => "AI service error"
  }

  /** Raising subclass `k` with an explicit message. */
  function Raise(k: ErrorKind, message: string): (e: AppError)
    ensures e.message == message
    ensures KindOf(e.statusCode) == Some(k)
  {
    AppError(message, StatusCode(k))
  }

  /** Raising subclass `k` without a message. */
  function RaiseDefault(k: ErrorKind): (e: AppError)
    ensures e.message == DefaultMessage(k)
    ensures KindOf(e.statusCode) == Some(k)
  {
    Raise(k, DefaultMessage(k))
  }

  /** Why a request did not produce its success response: an `AppError`, or a
      schema that refused the request body, naming every field it refused
      (marshmallow collects all field errors before raising). */
  datatype Failure =
    | AppFailure(error: AppError)
    | Invalid(fields: set<string>)

  datatype Result<+T> = Ok(value: T) | Err(failure: Failure)

  /** The outcome of `raise <kind>(message)` in a route. */
  function Throw<T>(k: ErrorKind, message: string): (r: Result<T>)
    ensures r.Err? && r.failure.AppFailure?
    ensures r.failure.error.message == message
    ensures KindOf(r.failure.error.statusCode) == Some(k)
  {
    Err(AppFailure(Raise(k, message)))
  }

  /** A schema verdict: the loaded data when no field was refused. */
  function Validated<T>(refused: set<string>, data: T): (r: Result<T>)
    ensures r.Ok? <==> refused == {}
    ensures r.Ok? ==> r.value == data
    ensures r.Err? ==> r.failure == Invalid(refused)
  {
    if refused == {} then Ok(data) else Err(Invalid(refused))
  }

  /** The JSON error body. */
  datatype Body = Body(error: string, status: int)

  /** An HTTP error response: its status line and its body. */
  datatype Response = Response(status: int, body: Body)

  /** What the registered error handlers catch: an `AppError`, or the
      framework's own 404, 405 and 500. */
  datatype Raised =
    | App(e: AppError)
    | UnknownEndpoint
    | WrongMethod
    | Crash

  /** The registered error handlers. Every body repeats the HTTP status it
      is sent with; an `AppError` keeps its own message and code. */
  function HandleError(x: Raised): (r: Response)
    ensures r.body.status == r.status
    ensures x.App? ==> r.status == x.e.statusCode && r.body.error == x.e.message
    ensures x.UnknownEndpoint? ==> r.status == 404 && r.body.error == "Endpoint not found"
    ensures x.WrongMethod? ==> r.status == 405 && r.body.error == "Method not allowed"
    ensures x.Crash? ==> r.status == 500 && r.body.error == "Internal server error"
  {
    match x
    case App(e) => Response(e.statusCode, Body(e.message, e.statusCode))
    case UnknownEndpoint => Response(404, Body("Endpoint not found", 404))
    case WrongMethod => Response(405, Body("Method not allowed", 405))
    case Crash => Response(500, Body("Internal server error", 500))
  }

  /** A raised `AppError` reaches the client with its message and a status
      that names its kind. */
  lemma RaisedErrorResponse(k: ErrorKind, message: string)
    ensures HandleError(App(Raise(k, message))).body == Body(message, StatusCode(k))
    ensures KindOf(HandleError(App(Raise(k, message))).status) == Some(k)
  {
  }
}
