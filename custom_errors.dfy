/**
 * The error classes of src/utils/customErrors.ts as a closed enumeration, plus the
 * other things a service of the core can throw (the JWT library's TokenExpiredError,
 * a plain Error, a database-client failure).
 */
module CustomErrors {
  import opened Wrappers

  /** The subclasses of AppError, and AppError itself. */
  datatype ErrorClass =
    | AppError
    | AuthenticationError
    | RegistrationError
    | ValidationError
    | NotFoundError
    | ForbiddenError
    | AccountUpdateError
    | EmptyTokenError

  /** The fields an AppError instance carries. */
  datatype AppErr = AppErr(message: string, statusCode: int, name: string, isOperational: bool)

  /** How a failure is classified for the caller (validation, authentication, ...). */
  datatype Classification = ClientInput | Unauthorized | Forbidden | Missing | Server

  function StatusCode(k: ErrorClass): int {
    match k
    case AppError => 500
    case AuthenticationError => 401
    case RegistrationError => 400
    case ValidationError => 400
    case NotFoundError => 404
    case ForbiddenError => 403
    case AccountUpdateError => 400
    case EmptyTokenError => 401
  }

  function Name(k: ErrorClass): string {
    match k
    case AppError => "AppError"
    case AuthenticationError => "AuthenticationError"
    case RegistrationError => "RegistrationError"
    case ValidationError => "ValidationError"
    case NotFoundError => "NotFoundError"
    case ForbiddenError => "ForbiddenError"
    case AccountUpdateError => "AccountUpdateError"
    case EmptyTokenError => "TokenError"
  }

  /** The message a subclass uses when none is given (AppError itself has no default). */
  function DefaultMessage(k: ErrorClass): string
    requires k != AppError
  {
    match k
    case AuthenticationError => "Invalid credentials"
    case RegistrationError => "Registration failed"
    case ValidationError => "Validation failed"
    case NotFoundError => "Resource not found"
    case ForbiddenError => "Access forbidden"
    case AccountUpdateError => "Account update failed"
    case EmptyTokenError => "Token error"
  }

  /** The class each error kind belongs to, stated independently of the status table. */
  function ClassOf(k: ErrorClass): Classification {
    match k
    case RegistrationError | ValidationError | AccountUpdateError => ClientInput
    case AuthenticationError | EmptyTokenError => Unauthorized
    case ForbiddenError => Forbidden
    case NotFoundError => Missing
    case AppError => Server
  }

  /** The base constructor `new AppError(message, statusCode = 500, name = "AppError")`. */
  function NewAppError(message: string, statusCode: Option<int>, name: Option<string>): (e: AppErr)
    ensures e.isOperational
    ensures e.message == message
    ensures statusCode.None? ==> e.statusCode == 500
    ensures name.None? ==> e.name == "AppError"
    ensures statusCode.Some? ==> e.statusCode == statusCode.value
    ensures name.Some? ==> e.name == name.value
  {
    AppErr(message, statusCode.GetOr(500), name.GetOr("AppError"), true)
  }

  /** `new K(message?)` for a subclass K: the subclass fixes status and name, the message defaults. */
  function New(k: ErrorClass, message: Option<string>): (e: AppErr)
    requires k != AppError
    ensures e.isOperational
    ensures e.statusCode == StatusCode(k) && e.name == Name(k)
    ensures message.Some? ==> e.message == message.value
    ensures message.None? ==> e.message == DefaultMessage(k) && e.message != ""
  {
    NewAppError(message.GetOr(DefaultMessage(k)), Some(StatusCode(k)), Some(Name(k)))
  }

  /** The status table agrees with the classification: one status per class. */
  lemma StatusFollowsClass(k: ErrorClass)
    ensures ClassOf(k) == ClientInput <==> StatusCode(k) == 400
    ensures ClassOf(k) == Unauthorized <==> StatusCode(k) == 401
    ensures ClassOf(k) == Forbidden <==> StatusCode(k) == 403
    ensures ClassOf(k) == Missing <==> StatusCode(k) == 404
    ensures ClassOf(k) == Server <==> StatusCode(k) == 500
  {
  }

  /** No two error classes share a name, so `name` identifies the class. */
  lemma NamesIdentifyClasses(a: ErrorClass, b: ErrorClass)
    ensures Name(a) == Name(b) ==> a == b
  {
  }

  /** What a service of the core can throw. */
  datatype Thrown =
    | App(error: AppErr)                               // an instance of AppError or a subclass
    | TokenExpired(message: string, expiredAt: int)    // the JWT library's TokenExpiredError
    | PlainError(message: string)                      // `new Error(message)`
    | StoreFailure(code: string)                       // raised by the database client

  /** Database-client failure codes: unique constraint violated, record to update not found, bad query. */
  const UniqueViolation := "P2002"
  const RecordNotFound := "P2025"
  const InvalidQuery := "PrismaClientValidationError"

  function Auth(message: string): Thrown {
    App(New(AuthenticationError, Some(message)))
  }

  function NotFound(message: string): Thrown {
    App(New(NotFoundError, Some(message)))
  }

  function EmptyToken(message: string): Thrown {
    App(New(EmptyTokenError, Some(message)))
  }

  function Registration(message: string): Thrown {
    App(New(RegistrationError, Some(message)))
  }
}
