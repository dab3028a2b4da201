/** Error values of the service (internal/pkg/apperrors/errors.go) and the
    translation of an error into an HTTP status code and message.

    Go errors are compared by identity; every sentinel of the package is one
    constructor here.  Errors that come from outside the package (the SQL
    driver, strconv, encoding/json, time.Parse) and sentinels the core refers
    to but that the package file does not declare are further constructors.
    `Wrapped` stands for any error that merely wraps another one. */
module AppErrors {

  datatype Option<+T> = None | Some(value: T)

  /** The (value, error) pair a Go function returns, with exactly one of the
      two meaningful. */
  datatype Result<+T> = Ok(value: T) | Err(error: Error)

  datatype Error =
    // sentinels declared in internal/pkg/apperrors/errors.go
    | ErrContextValue | ErrInternalServer
    | ErrInvalidRequestBody | ErrInvalidQueryParams | ErrFailedMarshal
    | ErrUnauthorizedAccess | ErrAccessForbidden | ErrInvalidToken
    | ErrFailedInitializingLogger | ErrNoAppConfigPath | ErrFailedToLoadAppConfig
    | ErrLoginWithGithubFailed | ErrGithubTokenExchangeFailed | ErrFailedToGetGithubUser | ErrFailedToGetUserEmail
    | ErrUserNotFound | ErrUserCreationFailed
    | ErrJWTCreationFailed | ErrAuthorizationFailed
    | ErrRepoNotFound | ErrRepoCreationFailed | ErrCalculatingUserRepoTotalCoins
    | ErrFetchingUsersContributedRepos | ErrFetchingUserContributionsInRepo
    | ErrFetchingFromBigquery | ErrNextContribution | ErrContributionCreationFailed
    | ErrFetchingRecentContributions | ErrFetchingAllContributions | ErrContributionScoreNotFound
    | ErrFetchingContribution | ErrContributionNotFound
    | ErrTransactionCreationFailed | ErrTransactionNotFound
    // sentinels the core uses that errors.go does not declare
    | ErrFetchingContributionTypes | ErrNoContributionForContributionType | ErrBadgeCreationFailed
    // errors from the standard library and the SQL driver
    | NoRows                                   // sql.ErrNoRows
    | DbFailure                                // any other error the driver reports
    | ScanArgCount(expected: nat, given: nat)  // rows.Scan with the wrong number of destinations
    | BindArgCount(expected: nat, given: nat)  // a query run with the wrong number of arguments
    | NumSyntax(input: string)                 // strconv.Atoi: invalid syntax
    | NumRange(input: string)                  // strconv.Atoi: value out of range
    | JsonSyntax                               // encoding/json: not valid JSON
    | JsonType                                 // encoding/json: valid JSON of the wrong type
    | TimeParse(input: string)                 // time.Parse: text does not match the layout
    | Wrapped(context: string, inner: Error)   // fmt.Errorf("...: %w", inner)

  const InternalServerMessage := "internal server error"

  /** err.Error() for the sentinels of errors.go. */
  function Message(e: Error): string
  {
    match e
    case ErrContextValue => "error obtaining value from context"
    case ErrInternalServer => InternalServerMessage
    case ErrInvalidRequestBody => "invalid or missing parameters in the request body"
    case ErrInvalidQueryParams => "invalid or missing query parameters"
    case ErrFailedMarshal => "failed to parse request body"
    case ErrUnauthorizedAccess => "unauthorized. please provide a valid access token"
    case ErrAccessForbidden => "access forbidden"
    case ErrInvalidToken => "invalid or expired token"
    case ErrFailedInitializingLogger => "failed to initialize logger"
    case ErrNoAppConfigPath => "no config path provided"
    case ErrFailedToLoadAppConfig => "failed to load environment configuration"
    case ErrLoginWithGithubFailed => "failed to login with Github"
    case ErrGithubTokenExchangeFailed => "failed to exchange Github token"
    case ErrFailedToGetGithubUser => "failed to get Github user info"
    case ErrFailedToGetUserEmail => "failed to get user email from Github"
    case ErrUserNotFound => "user not found"
    case ErrUserCreationFailed => "failed to create user"
    case ErrJWTCreationFailed => "failed to create jwt token"
    case ErrAuthorizationFailed => "failed to authorize user"
    case ErrRepoNotFound => "repository not found"
    case ErrRepoCreationFailed => "failed to create repo for user"
    case ErrCalculatingUserRepoTotalCoins => "error calculating total coins earned by user for the repository"
    case ErrFetchingUsersContributedRepos => "error fetching users contributed repositories"
    case ErrFetchingUserContributionsInRepo => "error fetching users contribution in repository"
    case ErrFetchingFromBigquery => "error fetching contributions from bigquery service"
    case ErrNextContribution => "error while loading next bigquery contribution"
    case ErrContributionCreationFailed => "failed to create contrbitution"
    case ErrFetchingRecentContributions => "failed to fetch users five recent contributions"
    case ErrFetchingAllContributions => "failed to fetch all contributions for user"
    case ErrContributionScoreNotFound => "failed to get contributionscore details for given contribution type"
    case ErrFetchingContribution => "error fetching contribution by github repo id"
    case ErrContributionNotFound => "contribution not found"
    case ErrTransactionCreationFailed => "error failed to create transaction"
    case ErrTransactionNotFound => "error transaction for the contribution id does not exist"
    case NoRows => "sql: no rows in result set"
    case Wrapped(context, inner) => context + ": " + Message(inner)
    case _ => "error"
  }

  const StatusBadRequest := 400
  const StatusUnauthorized := 401
  const StatusForbidden := 403
  const StatusNotFound := 404
  const StatusUnprocessableEntity := 422
  const StatusInternalServerError := 500

  /** The errors the handlers report to the client as themselves; every
      other error is reported as a generic internal server error. */
  predicate ClientFacing(e: Error)
  {
    e in {ErrInvalidRequestBody, ErrInvalidQueryParams, ErrContextValue,
          ErrUnauthorizedAccess, ErrAccessForbidden,
          ErrUserNotFound, ErrRepoNotFound, ErrContributionNotFound,
          ErrInvalidToken}
  }

  /** The status code and message a handler writes for an error. */
  function MapError(e: Error): (r: (int, string))
    ensures r.0 in {StatusBadRequest, StatusUnauthorized, StatusForbidden,
                    StatusNotFound, StatusUnprocessableEntity, StatusInternalServerError}
    ensures r.0 != StatusInternalServerError <==> ClientFacing(e)
    ensures ClientFacing(e) ==> r.1 == Message(e)
    ensures !ClientFacing(e) ==> r.1 == InternalServerMessage
  {
    match e
    case ErrInvalidRequestBody | ErrInvalidQueryParams | ErrContextValue => (StatusBadRequest, Message(e))
    case ErrUnauthorizedAccess => (StatusUnauthorized, Message(e))
    case ErrAccessForbidden => (StatusForbidden, Message(e))
    case ErrUserNotFound | ErrRepoNotFound | ErrContributionNotFound => (StatusNotFound, Message(e))
    case ErrInvalidToken => (StatusUnprocessableEntity, Message(e))
    case _ => (StatusInternalServerError, Message(ErrInternalServer))
  }

  /** errors.Is: the error itself, or one it wraps, is the target. */
  function Is(e: Error, target: Error): (b: bool)
    ensures e == target ==> b
    ensures !e.Wrapped? ==> (b <==> e == target)
  {
    if e == target then true
    else
      match e
      case Wrapped(_, inner) => Is(inner, target)
      case _ => false
  }

  /** Matching is by identity: a wrapped error is never recognised, whatever
      it wraps, so it is always a 500. */
  lemma WrappedIsInternal(context: string, inner: Error)
    ensures MapError(Wrapped(context, inner)) == (StatusInternalServerError, InternalServerMessage)
  {
  }

  /** Each client-facing status is produced by exactly the errors listed for it. */
  lemma MapErrorStatusClasses(e: Error)
    ensures MapError(e).0 == StatusBadRequest <==> e in {ErrInvalidRequestBody, ErrInvalidQueryParams, ErrContextValue}
    ensures MapError(e).0 == StatusUnauthorized <==> e == ErrUnauthorizedAccess
    ensures MapError(e).0 == StatusForbidden <==> e == ErrAccessForbidden
    ensures MapError(e).0 == StatusNotFound <==> e in {ErrUserNotFound, ErrRepoNotFound, ErrContributionNotFound}
    ensures MapError(e).0 == StatusUnprocessableEntity <==> e == ErrInvalidToken
  {
  }
}
