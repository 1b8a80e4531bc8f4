/**
 * The HTTP handler in front of the authentication service: request binding,
 * and the translation of service errors into status codes and bodies.
 */
module AuthHandler {
  import opened Wrappers
  import opened Domain
  import Cache
  import AuthService

  const StatusOK: int := 200
  const StatusBadRequest: int := 400
  const StatusUnauthorized: int := 401
  const StatusForbidden: int := 403
  const StatusTooManyRequests: int := 429
  const StatusInternalServerError: int := 500

  datatype Body =
    | ErrorBody(e: ErrorResponse)
    | LoginBody(response: LoginResponse)
    | MessageBody(message: string)

  datatype Reply = Reply(status: int, body: Body)

  /** The error codes of the replies. */
  const TooManyRequestsCode: string := "too_many_requests"
  const InvalidCredentialsCode: string := "invalid_credentials"
  const UserInactiveCode: string := "user_inactive"
  const InternalErrorCode: string := "internal_error"

  const InvalidRequest: ErrorResponse :=
    ErrorResponse("invalid_request", "Email y contraseña son requeridos")

  /**
   * Binding of the JSON body. `body` is None when it is not JSON of the
   * request's shape; a missing field reads as the empty string. The email
   * syntax check of the validation library is the black box `isEmail`;
   * `min=6` counts characters.
   */
  predicate Binds(body: Option<LoginRequest>, isEmail: string -> bool) {
    && body.Some?
    && body.value.email != "" && isEmail(body.value.email)
    && body.value.password != "" && |body.value.password| >= 6
  }

  /** The reply for a service error; anything unrecognised is an internal error. */
  function ErrorReply(e: AuthService.ServiceError): (r: Reply)
    ensures r.body.ErrorBody?
    ensures r.status in {StatusUnauthorized, StatusForbidden, StatusTooManyRequests, StatusInternalServerError}
  {
    match e
    case TooManyRequests =>
      Reply(StatusTooManyRequests, ErrorBody(ErrorResponse(TooManyRequestsCode,
        "Demasiados intentos fallidos. Intente nuevamente en 15 minutos.")))
    case InvalidCredentials =>
      Reply(StatusUnauthorized, ErrorBody(ErrorResponse(InvalidCredentialsCode,
        "Email o contraseña incorrectos.")))
    case UserNotActive =>
      Reply(StatusForbidden, ErrorBody(ErrorResponse(UserInactiveCode,
        "Su cuenta está desactivada. Contacte al administrador.")))
    case _ =>
      Reply(StatusInternalServerError, ErrorBody(ErrorResponse(InternalErrorCode,
        "Error interno del servidor.")))
  }

  /** POST /login: the reply and the cache afterwards. */
  function Login(
    cache: Cache.Cache, users: AuthService.Users, deps: AuthService.Deps,
    isEmail: string -> bool, body: Option<LoginRequest>, ip: string): (r: (Reply, Cache.Cache))
    ensures !Binds(body, isEmail) ==>
      r == (Reply(StatusBadRequest, ErrorBody(InvalidRequest)), cache)
    ensures Binds(body, isEmail) ==>
      var s := AuthService.Authenticate(cache, users, deps, body.value.email, body.value.password, ip);
      r.1 == s.cache
      && (s.result.Success? ==> r.0 == Reply(StatusOK, LoginBody(s.result.value)))
      && (s.result.Failure? ==> r.0 == ErrorReply(s.result.error))
  {
    if !Binds(body, isEmail) then
      (Reply(StatusBadRequest, ErrorBody(InvalidRequest)), cache)
    else
      var s := AuthService.Authenticate(cache, users, deps, body.value.email, body.value.password, ip);
      match s.result
      case Success(response) => (Reply(StatusOK, LoginBody(response)), s.cache)
      case Failure(e) => (ErrorReply(e), s.cache)
  }

  /** POST /logout: acknowledged without touching any session. */
  function Logout(): (r: Reply)
    ensures r.status == StatusOK && r.body.MessageBody?
  {
    Reply(StatusOK, MessageBody("Sesión cerrada exitosamente"))
  }

  // --------------------------------------------------------------- properties

  /** The error code of an error reply. */
  function CodeOf(r: Reply): string {
    if r.body.ErrorBody? then r.body.e.error else ""
  }

  /**
   * The error mapping is total and each status goes with exactly one code:
   * 429 too_many_requests, 401 invalid_credentials, 403 user_inactive, and
   * 500 internal_error for every other error.
   */
  lemma ErrorReplyTable(e: AuthService.ServiceError)
    ensures var r := ErrorReply(e);
      && (r.status == StatusTooManyRequests <==> CodeOf(r) == TooManyRequestsCode)
      && (r.status == StatusUnauthorized <==> CodeOf(r) == InvalidCredentialsCode)
      && (r.status == StatusForbidden <==> CodeOf(r) == UserInactiveCode)
      && (r.status == StatusInternalServerError <==> CodeOf(r) == InternalErrorCode)
    ensures ErrorReply(e).status == StatusTooManyRequests <==> e == AuthService.TooManyRequests
    ensures ErrorReply(e).status == StatusUnauthorized <==> e == AuthService.InvalidCredentials
    ensures ErrorReply(e).status == StatusForbidden <==> e == AuthService.UserNotActive
  {
    CodesDistinct();
    match e
    case TooManyRequests =>
    case InvalidCredentials =>
    case UserNotActive =>
    case _ =>
  }

  /** The four codes are pairwise different (they differ in length). */
  lemma CodesDistinct()
    ensures TooManyRequestsCode != InvalidCredentialsCode && TooManyRequestsCode != UserInactiveCode
    ensures TooManyRequestsCode != InternalErrorCode && InvalidCredentialsCode != UserInactiveCode
    ensures InvalidCredentialsCode != InternalErrorCode && UserInactiveCode != InternalErrorCode
  {
    assert |TooManyRequestsCode| == 17 && |InvalidCredentialsCode| == 19;
    assert |UserInactiveCode| == 13 && |InternalErrorCode| == 14;
  }

  /** The code sent for an inactive account is not the service error's own text. */
  lemma InactiveCodeDiffersFromServiceText()
    ensures CodeOf(ErrorReply(AuthService.UserNotActive)) == "user_inactive"
    ensures AuthService.ErrorText(AuthService.UserNotActive) == "user_not_active"
  {
  }

  /** A body that does not bind never reaches the service: the cache is unchanged. */
  lemma UnboundBodyLeavesCache(
    cache: Cache.Cache, users: AuthService.Users, deps: AuthService.Deps,
    isEmail: string -> bool, body: Option<LoginRequest>, ip: string)
    requires !Binds(body, isEmail)
    ensures var r := Login(cache, users, deps, isEmail, body, ip);
      r.0.status == StatusBadRequest && CodeOf(r.0) == "invalid_request" && r.1 == cache
  {
  }

  /** A password shorter than six characters is refused by binding alone. */
  lemma ShortPasswordRefused(
    cache: Cache.Cache, users: AuthService.Users, deps: AuthService.Deps,
    isEmail: string -> bool, email: string, password: string, ip: string)
    requires |password| < 6
    ensures Login(cache, users, deps, isEmail, Some(LoginRequest(email, password)), ip).0.status
      == StatusBadRequest
  {
  }
}
