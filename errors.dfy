/** The error records of the request pipeline (src/models/Errors.ts), the HTTP
    status table (src/contants/httpStatus.ts) and the user messages
    (src/contants/messages.ts), together with the JSON values that requests
    and responses carry. */
module Errors {

  datatype Option<+T> = None | Some(value: T)

  // ---------------------------------------------------------------------------
  // src/contants/httpStatus.ts, with its values as written: FORBIDDEN is 401.

  const UNPROCESSABELE_ENTITY := 422
  const UNAUTHORIZED := 401
  const FORBIDDEN := 401
  const NOT_FOUND := 404
  const INTERNAL_SERVER_ERROR := 500

  // ---------------------------------------------------------------------------
  // src/contants/messages.ts. The middlewares also read two keys that the
  // table does not define; reading them yields `undefined`, here `None`.

  datatype MessageKey =
    | ValidationError
    | NameIsRequired
    | NameMustBeString
    | NameMustBeAtLeast
    | NameLengthMustBeFrom1To100
    | EmailIsInvalid
    | PasswordIsRequired
    | PasswordMustBeAString
    | PasswordMustBeAStrong
    | UserNotFound
    | EmailOrPasswordError
    | PasswordLengthMustBeFrom6To50
    | AccessTokenIsRequired
    | RefreshTokenIsRequired
    | RefreshTokenIsInvalid
    | LogoutSuccess
    | RefreshTokenNotExist
    | EmailVerifyTokenIsRequired

  /** `USER_MESSAGE[k]`: the text of a key, or None for a key the table lacks. */
  function UserMessage(k: MessageKey): (r: Option<string>)
    ensures r.None? <==> (k == RefreshTokenNotExist || k == EmailVerifyTokenIsRequired)
    ensures k == ValidationError ==> r == Some("Validation Error")
  {
    match k
    case ValidationError => Some("Validation Error")
    case NameIsRequired => Some("Name is required")
    case NameMustBeString => Some("Name must be a string")
    case NameMustBeAtLeast => Some("Character must be at least a character")
    case NameLengthMustBeFrom1To100 => Some("Name must be from 1 to 100")
    case EmailIsInvalid => Some("Email is invalid")
    case PasswordIsRequired => Some("Password is required")
    case PasswordMustBeAString => Some("Password must be a string")
    case PasswordMustBeAStrong => Some("Password must be a 6-60 characters long")
    case UserNotFound => Some("User not found")
    case EmailOrPasswordError => Some("Email or password is error")
    case PasswordLengthMustBeFrom6To50 => Some("Password must be from 6 to 50")
    case AccessTokenIsRequired => Some("Access token is required")
    case RefreshTokenIsRequired => Some("Refretch token is required")
    case RefreshTokenIsInvalid => Some("Refretch token is invalid")
    case LogoutSuccess => Some("Logout Success")
    case RefreshTokenNotExist => None
    case EmailVerifyTokenIsRequired => None
  }

  /** The `message` of `new Error(m)`: JavaScript turns an undefined message
      into the empty string. */
  function ErrorText(m: Option<string>): string {
    match m
    case Some(s) => s
    case None => ""
  }

  // ---------------------------------------------------------------------------
  // JSON values of request bodies, headers, params and response bodies.
  // Arrays and non-integer numbers are not modelled.

  datatype Json =
    | JString(s: string)
    | JNumber(n: int)
    | JBool(b: bool)
    | JNull
    | JObject(fields: map<string, Json>)

  /** A field of a request: `undefined` or a JSON value. */
  datatype Input = Undefined | Value(json: Json)

  /** The request location a field is read from. */
  datatype Location = Body | Headers | Params

  // ---------------------------------------------------------------------------
  // src/models/Errors.ts

  /** `class ErrorWithStatus { message; status }`. The message may be undefined
      when a caller passes a missing key of the messages table. */
  datatype ErrorWithStatus = ErrorWithStatus(message: Option<string>, status: int)

  /** `new ErrorWithStatus({ message, status })`: the fields are stored as given. */
  function NewErrorWithStatus(message: Option<string>, status: int): (e: ErrorWithStatus)
    ensures e.message == message && e.status == status
  {
    ErrorWithStatus(message, status)
  }

  /** The `msg` of a recorded field error: the message of a thrown `Error` (or
      of a failing built-in rule), or the thrown `ErrorWithStatus` object itself. */
  datatype Msg = Plain(text: string) | WithStatus(err: ErrorWithStatus)

  /** One entry of the error map that express-validator produces for a field. */
  datatype FieldEntry = FieldEntry(value: Input, msg: Msg, path: string, location: Location)

  /** `ErrorType`: field name to recorded entry. */
  type ErrorType = map<string, FieldEntry>

  /** `class EntityError extends ErrorWithStatus { errors }`; its status is fixed
      by the constructor, so it is a function of the value here. */
  datatype EntityError = EntityError(message: Option<string>, errors: ErrorType)
  {
    function Status(): int { UNPROCESSABELE_ENTITY }

    /** The `ErrorWithStatus` part of the object. */
    function AsErrorWithStatus(): (e: ErrorWithStatus)
      ensures e.message == message && e.status == 422
    {
      ErrorWithStatus(message, Status())
    }
  }

  /** `new EntityError({ message, errors })`, with the message defaulting to
      `USER_MESSAGE.VALIDATION_ERROR` when none is given. */
  function NewEntityError(message: Option<string>, errors: ErrorType): (e: EntityError)
    ensures e.errors == errors
    ensures e.Status() == 422
    ensures message.Some? ==> e.message == message
    ensures message.None? ==> e.message == Some("Validation Error")
  {
    EntityError(if message.Some? then message else UserMessage(ValidationError), errors)
  }

  /** Any other thrown object, such as a `TypeError`: its own properties with
      their values, and which of them are enumerable. */
  datatype ErrorObject = ErrorObject(own: map<string, Json>, enumerable: set<string>)

  /** What a middleware passes to `next(err)`. */
  datatype Thrown =
    | Typed(err: ErrorWithStatus)
    | Entity(entity: EntityError)
    | Untyped(obj: ErrorObject)
  {
    /** `err instanceof ErrorWithStatus`. */
    predicate IsErrorWithStatus() { Typed? || Entity? }

    /** `err.status` of an `ErrorWithStatus`. */
    function StatusOf(): int
      requires IsErrorWithStatus()
    {
      if Typed? then err.status else entity.Status()
    }
  }

  /** Every `EntityError` is an `ErrorWithStatus`, with status 422 and the
      message it was built with. */
  lemma EntityIsErrorWithStatus(e: EntityError)
    ensures Entity(e).IsErrorWithStatus()
    ensures Entity(e).StatusOf() == UNPROCESSABELE_ENTITY
    ensures e.AsErrorWithStatus() == NewErrorWithStatus(e.message, 422)
  {
  }
}
