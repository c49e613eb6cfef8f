/**
 * How the REST layer's error handler turns an error into an HTTP status
 * (backend/internal/adapter/driver/rest/middleware/errorHandler.go): the code of
 * the first application error on the chain picks the status, anything else is 500.
 */
module ErrorStatus {
  import opened Wrappers
  import opened AppError

  const StatusBadRequest := 400
  const StatusUnauthorized := 401
  const StatusForbidden := 403
  const StatusNotFound := 404
  const StatusConflict := 409
  const StatusInternalServerError := 500

  const AuthCodes: set<Code> := {CodeUnauthorized, CodeInvalidCredentials, CodeDisabledUser, CodeTokenExpired}
  const MissingCodes: set<Code> := {CodeNotFound, CodeUserNotFound, CodeRoleNotFound}
  const ConflictCodes: set<Code> := {CodeAlreadyExists, CodeConflict}
  const BadRequestCodes: set<Code> :=
    {CodeResourceInUse, CodeInvalidInput, CodeValidationFailed, CodeUserHasPassword, CodePasswordMismatch}

  /** `mapAppErrorToStatus`. */
  function MapAppErrorToStatus(code: Code): (status: int)
    ensures status in {StatusBadRequest, StatusUnauthorized, StatusForbidden, StatusNotFound, StatusConflict, StatusInternalServerError}
  {
    if code == CodeUnauthorized || code == CodeInvalidCredentials || code == CodeDisabledUser || code == CodeTokenExpired then
      StatusUnauthorized
    else if code == CodeForbidden then StatusForbidden
    else if code == CodeNotFound || code == CodeUserNotFound || code == CodeRoleNotFound then StatusNotFound
    else if code == CodeAlreadyExists || code == CodeConflict then StatusConflict
    else if code == CodeResourceInUse then StatusBadRequest
    else if code == CodeInvalidInput || code == CodeValidationFailed || code == CodeUserHasPassword || code == CodePasswordMismatch then
      StatusBadRequest
    else StatusInternalServerError
  }

  /** Each status is chosen by exactly one class of codes; every other code is a server error. */
  lemma StatusClasses(code: Code)
    ensures MapAppErrorToStatus(code) == StatusUnauthorized <==> code in AuthCodes
    ensures MapAppErrorToStatus(code) == StatusForbidden <==> code == CodeForbidden
    ensures MapAppErrorToStatus(code) == StatusNotFound <==> code in MissingCodes
    ensures MapAppErrorToStatus(code) == StatusConflict <==> code in ConflictCodes
    ensures MapAppErrorToStatus(code) == StatusBadRequest <==> code in BadRequestCodes
    ensures MapAppErrorToStatus(code) == StatusInternalServerError <==>
      code !in AuthCodes + MissingCodes + ConflictCodes + BadRequestCodes + {CodeForbidden}
  {
  }

  /** The status the default error handler answers for `err`. */
  function ResponseStatus(err: GoError): int
  {
    match AsApp(err)
    case Some(e) => MapAppErrorToStatus(e.code)
    case None => StatusInternalServerError
  }

  /** The handler's status is the status of `GetCode`: an error without code is internal. */
  lemma ResponseStatusByCode(err: GoError)
    ensures ResponseStatus(err) == MapAppErrorToStatus(GetCode(err))
    ensures AsApp(err).None? ==> ResponseStatus(err) == StatusInternalServerError
  {
  }
}
