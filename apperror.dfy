/**
 * The structured application error of backend/pkg/apperror: a code, a message,
 * an optional field, lazily created details and an optional cause, with the
 * `errors.As`-based helpers that classify any Go error by its code.
 */
module AppError {
  import opened Wrappers

  type Code = string

  const CodeUnauthorized: Code := "unauthorized"
  const CodeForbidden: Code := "forbidden"
  const CodeInvalidCredentials: Code := "incorrectCredentials"
  const CodeDisabledUser: Code := "disabledUser"
  const CodeTokenExpired: Code := "TOKEN_EXPIRED"
  const CodeNotFound: Code := "NOT_FOUND"
  const CodeAlreadyExists: Code := "ALREADY_EXISTS"
  const CodeConflict: Code := "CONFLICT"
  const CodeResourceInUse: Code := "RESOURCE_IN_USE"
  const CodeInvalidInput: Code := "INVALID_INPUT"
  const CodeValidationFailed: Code := "VALIDATION_FAILED"
  const CodeInternal: Code := "INTERNAL_ERROR"
  const CodeDatabaseError: Code := "DATABASE_ERROR"
  const CodeExternalService: Code := "EXTERNAL_SERVICE_ERROR"
  const CodeUserNotFound: Code := "userNotFound"
  const CodeUserHasPassword: Code := "userHasPassword"
  const CodeRoleNotFound: Code := "ROLE_NOT_FOUND"
  const CodePasswordMismatch: Code := "PASSWORD_MISMATCH"

  /** `*apperror.Error`. */
  datatype Error = Error(
    code: Code,
    message: string,
    field: string,
    details: Option<map<string, Dynamic>>,
    cause: Option<GoError>)

  /**
   * A non-nil Go `error`: an application error, a plain error (a library's, or
   * `errors.New`), or a plain error wrapping another (`fmt.Errorf` with `%w`).
   */
  datatype GoError = App(err: Error) | Plain(text: string) | Wrapped(text: string, inner: GoError)

  /** `Error()`. */
  function Text(e: Error): string
  {
    if e.field != "" then "[" + e.code + "] " + e.field + ": " + e.message
    else "[" + e.code + "] " + e.message
  }

  /**
   * The rendering is the bracketed code, a space, then "field: " when a field
   * is set, and the message last; prefix, middle and suffix fill it exactly.
   */
  lemma TextShape(e: Error)
    ensures var t := Text(e);
      |t| >= |e.code| + 3 + |e.message|
      && t[..|e.code| + 2] == "[" + e.code + "]"
      && t[|t| - |e.message|..] == e.message
      && (|t| == |e.code| + 3 + |e.message| <==> e.field == "")
    ensures var t := Text(e);
      e.field == "" ==> t[|e.code| + 2] == ' '
    ensures var t := Text(e);
      e.field != "" ==>
        |t| == |e.code| + 5 + |e.field| + |e.message|
        && t[|e.code| + 2..|e.code| + 5 + |e.field|] == " " + e.field + ": "
  {
  }

  /** Details and cause never show in the rendering. */
  lemma TextIgnoresDetailsAndCause(e: Error, f: Error)
    requires e.code == f.code && e.field == f.field && e.message == f.message
    ensures Text(e) == Text(f)
  {
  }

  /** `Unwrap()` for any Go error: what `errors.As` visits next. */
  function Unwrap(err: GoError): Option<GoError>
  {
    match err
    case App(e) => e.cause
    case Plain(_) => None
    case Wrapped(_, inner) => Some(inner)
  }

  /**
   * `errors.As(err, &appErr)`: the first application error on the wrapping
   * chain of `err`, if any.
   */
  function AsApp(err: GoError): (r: Option<Error>)
    ensures err.App? ==> r == Some(err.err)
    ensures err.Plain? ==> r == None
  {
    match err
    case App(e) => Some(e)
    case Plain(_) => None
    case Wrapped(_, inner) => AsApp(inner)
  }

  /** Wraps `inner` in one plain error per message, innermost last. */
  function WrapAll(texts: seq<string>, inner: GoError): GoError
  {
    if texts == [] then inner else Wrapped(texts[0], WrapAll(texts[1..], inner))
  }

  /** `errors.As` sees through any number of `%w` wrappers. */
  lemma {:induction false} AsAppThroughWrappers(texts: seq<string>, inner: GoError)
    ensures AsApp(WrapAll(texts, inner)) == AsApp(inner)
  {
    if texts != [] {
      AsAppThroughWrappers(texts[1..], inner);
    }
  }

  /** `(*Error).Is(target)`: true exactly when the target carries an application error of the same code. */
  predicate Is(e: Error, target: GoError)
  {
    match AsApp(target)
    case Some(t) => e.code == t.code
    case None => false
  }

  /** `Is` compares codes only, so it is an equivalence on application errors. */
  lemma IsComparesCodes(e: Error, t: Error, u: Error)
    ensures Is(e, App(t)) <==> e.code == t.code
    ensures Is(e, App(e))
    ensures Is(e, App(t)) ==> Is(t, App(e))
    ensures Is(e, App(t)) && Is(t, App(u)) ==> Is(e, App(u))
  {
  }

  /** `IsCode`. */
  predicate IsCode(err: GoError, code: Code)
  {
    match AsApp(err)
    case Some(e) => e.code == code
    case None => false
  }

  predicate IsNotFound(err: GoError)
  {
    IsCode(err, CodeNotFound)
  }

  /** `IsValidationError`: invalid input or a failed validation. */
  predicate IsValidationError(err: GoError)
  {
    IsCode(err, CodeInvalidInput) || IsCode(err, CodeValidationFailed)
  }

  /** `GetCode`: the code of the first application error, or the internal code. */
  function GetCode(err: GoError): (c: Code)
    ensures AsApp(err).None? ==> c == CodeInternal
  {
    match AsApp(err)
    case Some(e) => e.code
    case None => CodeInternal
  }

  /** `IsCode` and `GetCode` agree, except that an error without code reads as internal. */
  lemma IsCodeGetCode(err: GoError, code: Code)
    ensures IsCode(err, code) ==> GetCode(err) == code
    ensures GetCode(err) == code && code != CodeInternal ==> IsCode(err, code)
  {
  }

  /** A validation error is exactly one whose code is one of the two validation codes. */
  lemma ValidationErrorByCode(err: GoError)
    ensures IsValidationError(err) <==> GetCode(err) in {CodeInvalidInput, CodeValidationFailed}
  {
  }

  /** `WithField`. */
  function WithField(e: Error, field: string): (r: Error)
    ensures r.field == field
    ensures r.code == e.code && r.message == e.message && r.details == e.details && r.cause == e.cause
  {
    e.(field := field)
  }

  /** `WithDetails`: creates the map on first use and sets one key. */
  function WithDetails(e: Error, key: string, value: Dynamic): (r: Error)
    ensures r.details.Some? && key in r.details.value && r.details.value[key] == value
    ensures e.details.None? ==> r.details.value.Keys == {key}
    ensures e.details.Some? ==> r.details.value.Keys == e.details.value.Keys + {key}
    ensures e.details.Some? ==> forall k :: k in e.details.value && k != key ==> r.details.value[k] == e.details.value[k]
    ensures r.code == e.code && r.message == e.message && r.field == e.field && r.cause == e.cause
  {
    var m := if e.details.Some? then e.details.value else map[];
    e.(details := Some(m[key := value]))
  }

  /** `WithCause`; the cause is then what `Unwrap` returns. */
  function WithCause(e: Error, cause: GoError): (r: Error)
    ensures Unwrap(App(r)) == Some(cause)
    ensures r.code == e.code && r.message == e.message && r.field == e.field && r.details == e.details
  {
    e.(cause := Some(cause))
  }

  function New(code: Code, message: string): Error
  {
    Error(code, message, "", None, None)
  }

  function Wrap(code: Code, message: string, cause: GoError): Error
  {
    Error(code, message, "", None, Some(cause))
  }

  function NotFound(resource: string): Error
  {
    New(CodeNotFound, resource + " not found")
  }

  function AlreadyExists(resource: string): Error
  {
    New(CodeAlreadyExists, resource + " already exists")
  }

  function InvalidInput(field: string, message: string): Error
  {
    Error(CodeInvalidInput, message, field, None, None)
  }

  function ValidationFailed(message: string): Error
  {
    New(CodeValidationFailed, message)
  }

  function Unauthorized(message: string): Error
  {
    New(CodeUnauthorized, message)
  }

  function Forbidden(message: string): Error
  {
    New(CodeForbidden, message)
  }

  function Internal(message: string, cause: Option<GoError>): Error
  {
    Error(CodeInternal, message, "", None, cause)
  }

  function Conflict(resource: string, reason: string): Error
  {
    New(CodeConflict, resource + " conflict: " + reason)
  }

  function ResourceInUse(resource: string): Error
  {
    New(CodeResourceInUse, resource + " is in use and cannot be deleted")
  }

  function UserNotFound(): Error
  {
    New(CodeUserNotFound, "user not found")
  }

  function RoleNotFound(): Error
  {
    New(CodeRoleNotFound, "role not found")
  }

  function UserHasPassword(): Error
  {
    New(CodeUserHasPassword, "user already has a password")
  }

  function PasswordMismatch(): Error
  {
    New(CodePasswordMismatch, "passwords do not match")
  }

  function DisabledUser(): Error
  {
    New(CodeDisabledUser, "user is disabled")
  }

  function InvalidCredentials(): Error
  {
    New(CodeInvalidCredentials, "invalid credentials")
  }

  /** What the Go runtime reports when nil is dereferenced; the model returns it where the code would panic. */
  const ErrNilDereference: GoError := Plain("runtime error: invalid memory address or nil pointer dereference")

  /** The text of any Go error, as `err.Error()` gives it. */
  function ErrorString(err: GoError): string
  {
    match err
    case App(e) => Text(e)
    case Plain(t) => t
    case Wrapped(t, _) => t
  }
}
