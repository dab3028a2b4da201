/** The older, smaller error table of backend/internal/pkg/apperrors/errors.go.
    Its sentinels are distinct Go values from those of the current package, so
    they get their own datatype; `Current` names, for each of them, the
    current sentinel with the same message. */
module LegacyAppErrors {
  import AppErrors

  datatype LegacyError =
    | ErrInternalServer
    | ErrInvalidRequestBody | ErrInvalidQueryParams | ErrFailedMarshal
    | ErrUnauthorizedAccess | ErrAccessForbidden | ErrInvalidToken
    | ErrFailedInitializingLogger | ErrNoAppConfigPath | ErrFailedToLoadAppConfig
    | ErrLoginWithGithubFailed | ErrGithubTokenExchangeFailed | ErrFailedToGetGithubUser | ErrFailedToGetUserEmail
    | ErrUserNotFound | ErrUserCreationFailed
    | ErrJWTCreationFailed | ErrAuthorizationFailed
    | Other(message: string)   // any error that is not one of the sentinels above

  /** The current sentinel declared with the same message. */
  function Current(e: LegacyError): AppErrors.Error
  {
    match e
    case ErrInternalServer => AppErrors.ErrInternalServer
    case ErrInvalidRequestBody => AppErrors.ErrInvalidRequestBody
    case ErrInvalidQueryParams => AppErrors.ErrInvalidQueryParams
    case ErrFailedMarshal => AppErrors.ErrFailedMarshal
    case ErrUnauthorizedAccess => AppErrors.ErrUnauthorizedAccess
    case ErrAccessForbidden => AppErrors.ErrAccessForbidden
    case ErrInvalidToken => AppErrors.ErrInvalidToken
    case ErrFailedInitializingLogger => AppErrors.ErrFailedInitializingLogger
    case ErrNoAppConfigPath => AppErrors.ErrNoAppConfigPath
    case ErrFailedToLoadAppConfig => AppErrors.ErrFailedToLoadAppConfig
    case ErrLoginWithGithubFailed => AppErrors.ErrLoginWithGithubFailed
    case ErrGithubTokenExchangeFailed => AppErrors.ErrGithubTokenExchangeFailed
    case ErrFailedToGetGithubUser => AppErrors.ErrFailedToGetGithubUser
    case ErrFailedToGetUserEmail => AppErrors.ErrFailedToGetUserEmail
    case ErrUserNotFound => AppErrors.ErrUserNotFound
    case ErrUserCreationFailed => AppErrors.ErrUserCreationFailed
    case ErrJWTCreationFailed => AppErrors.ErrJWTCreationFailed
    case ErrAuthorizationFailed => AppErrors.ErrAuthorizationFailed
    case Other(m) => AppErrors.Wrapped(m, AppErrors.DbFailure)
  }

  function Message(e: LegacyError): string
  {
    if e.Other? then e.message else AppErrors.Message(Current(e))
  }

  predicate ClientFacing(e: LegacyError)
  {
    e in {ErrInvalidRequestBody, ErrInvalidQueryParams, ErrUnauthorizedAccess,
          ErrAccessForbidden, ErrUserNotFound, ErrInvalidToken}
  }

  /** The status code and message a handler of the older server writes. */
  function MapError(e: LegacyError): (r: (int, string))
    ensures r.0 != AppErrors.StatusInternalServerError <==> ClientFacing(e)
    ensures ClientFacing(e) ==> r.1 == Message(e)
    ensures !ClientFacing(e) ==> r.1 == AppErrors.InternalServerMessage
    ensures r.0 == AppErrors.StatusNotFound <==> e == ErrUserNotFound
  {
    match e
    case ErrInvalidRequestBody | ErrInvalidQueryParams => (AppErrors.StatusBadRequest, Message(e))
    case ErrUnauthorizedAccess => (AppErrors.StatusUnauthorized, Message(e))
    case ErrAccessForbidden => (AppErrors.StatusForbidden, Message(e))
    case ErrUserNotFound => (AppErrors.StatusNotFound, Message(e))
    case ErrInvalidToken => (AppErrors.StatusUnprocessableEntity, Message(e))
    case _ => (AppErrors.StatusInternalServerError, Message(ErrInternalServer))
  }

  /** The current table extends the older one: every older error gets the
      same status and message from the current table as from its own. */
  lemma CurrentTableExtendsLegacy(e: LegacyError)
    ensures AppErrors.MapError(Current(e)) == MapError(e)
  {
  }

  /** The current table differs only in the sentinels it added: every error
      it reports as client-facing, other than ErrContextValue, ErrRepoNotFound
      and ErrContributionNotFound, is the counterpart of an older sentinel. */
  lemma AddedClientErrors(e: AppErrors.Error)
    requires AppErrors.ClientFacing(e)
    requires e !in {AppErrors.ErrContextValue, AppErrors.ErrRepoNotFound, AppErrors.ErrContributionNotFound}
    ensures exists l: LegacyError :: Current(l) == e && ClientFacing(l)
  {
    var l: LegacyError :=
      match e
      case ErrInvalidRequestBody => ErrInvalidRequestBody
      case ErrInvalidQueryParams => ErrInvalidQueryParams
      case ErrUnauthorizedAccess => ErrUnauthorizedAccess
      case ErrAccessForbidden => ErrAccessForbidden
      case ErrUserNotFound => ErrUserNotFound
      case _ => ErrInvalidToken;
    assert Current(l) == e && ClientFacing(l);
  }
}
