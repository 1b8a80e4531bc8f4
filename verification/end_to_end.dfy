/**
 * The two halves joined: a backend login reply as the web client receives
 * it, and what the login use case then reports.
 */
module EndToEnd {
  import opened Wrappers
  import Domain
  import Entities
  import Cache
  import AuthService
  import AuthHandler
  import AuthApiAdapter
  import LoginUseCase

  /** The user as the client decodes it: the password hash is never sent. */
  function ToClientUser(u: Domain.User): (c: Entities.User)
    ensures c.id == u.id && c.email == u.email && c.role == u.role
    ensures c.isActive == u.isActive && c.createdAt == u.createdAt
  {
    Entities.User(u.id, u.email, u.role, u.isActive, u.createdAt)
  }

  /**
   * How a login reply settles on the client: a 2xx login body is delivered;
   * on any other status the body arrives as the HTTP error's response data,
   * read for its `error` and `message` fields (a login body has neither).
   * A 2xx message body, which only the logout handler sends, would be
   * delivered as it is; a login outcome cannot carry it, so it is taken as
   * an unknown failure.
   */
  function Transmit(reply: AuthHandler.Reply): (p: AuthApiAdapter.Post<Entities.LoginResponse>)
    ensures reply.body.LoginBody? && 200 <= reply.status < 300 ==>
      p.Delivered? && p.body.token == reply.body.response.token
      && p.body.user == ToClientUser(reply.body.response.user)
    ensures reply.body.ErrorBody? ==>
      p == AuthApiAdapter.HttpFailure(Some(Entities.Thrown(Some(reply.body.e.error), Some(reply.body.e.message))))
    ensures reply.body.LoginBody? && !(200 <= reply.status < 300) ==>
      p == AuthApiAdapter.HttpFailure(Some(Entities.Thrown(None, None)))
    ensures reply.body.MessageBody? && !(200 <= reply.status < 300) ==>
      p == AuthApiAdapter.HttpFailure(Some(Entities.Thrown(None, Some(reply.body.message))))
  {
    match reply.body
    case LoginBody(r) =>
      if 200 <= reply.status < 300 then
        AuthApiAdapter.Delivered(Entities.LoginResponse(r.token, ToClientUser(r.user)))
      else AuthApiAdapter.HttpFailure(Some(Entities.Thrown(None, None)))
    case ErrorBody(e) =>
      AuthApiAdapter.HttpFailure(Some(Entities.Thrown(Some(e.error), Some(e.message))))
    case MessageBody(m) =>
      if 200 <= reply.status < 300 then AuthApiAdapter.OtherFailure
      else AuthApiAdapter.HttpFailure(Some(Entities.Thrown(None, Some(m))))
  }

  /** The gateway the use case sees when it talks to this backend. */
  function Gateway(
    cache: Cache.Cache, users: AuthService.Users, deps: AuthService.Deps,
    isEmail: string -> bool, ip: string): Entities.Credentials -> Result<Entities.LoginResponse, Entities.Thrown>
  {
    (c: Entities.Credentials) => AuthApiAdapter.Login(Transmit(
      AuthHandler.Login(cache, users, deps, isEmail, Some(Domain.LoginRequest(c.email, c.password)), ip).0))
  }

  /** A backend error reaches the page with its code intact. */
  lemma ErrorsReachThePage(e: AuthService.ServiceError)
    ensures var shown := AuthApiAdapter.Login(Transmit(AuthHandler.ErrorReply(e)));
      && shown.Failure?
      && LoginUseCase.MapError(shown.error).error == Some(AuthHandler.CodeOf(AuthHandler.ErrorReply(e)))
  {
  }

  /**
   * For a blocked client the page shows the client's own wording, which
   * differs from the server's message.
   */
  lemma TooManyRequestsReworded()
    ensures var reply := AuthHandler.ErrorReply(AuthService.TooManyRequests);
      var shown := LoginUseCase.MapError(AuthApiAdapter.Login(Transmit(reply)).error);
      && shown.message == "Demasiados intentos fallidos. Intente en 15 minutos."
      && shown.message != reply.body.e.message
  {
  }

  /** An internal error is shown with the server's own message. */
  lemma InternalErrorKeepsServerMessage(e: AuthService.ServiceError)
    requires e.UserNotFound? || e.TokenFailure?
    ensures var reply := AuthHandler.ErrorReply(e);
      var shown := LoginUseCase.MapError(AuthApiAdapter.Login(Transmit(reply)).error);
      shown.message == reply.body.e.message == "Error interno del servidor."
  {
  }

  /** A refused request body reaches the page with the server's message. */
  lemma InvalidRequestReachesThePage()
    ensures var shown := AuthApiAdapter.Login(Transmit(
        AuthHandler.Reply(AuthHandler.StatusBadRequest, AuthHandler.ErrorBody(AuthHandler.InvalidRequest))));
      && shown.Failure?
      && LoginUseCase.MapError(shown.error)
         == Entities.AuthError(Some("invalid_request"), "Email y contraseña son requeridos")
  {
  }

  /**
   * A login through the client against this backend: an address the client
   * refuses never reaches the server; otherwise the client logs in exactly
   * when the request binds and the service accepts it, with the service's
   * user (without its hash), and then holds the issued token.
   */
  lemma LoginAcrossTheWire(
    cache: Cache.Cache, users: AuthService.Users, deps: AuthService.Deps,
    isEmail: string -> bool, ip: string,
    store: LoginUseCase.Storage, json: LoginUseCase.Json, credentials: Entities.Credentials)
    ensures var x := LoginUseCase.Execute(store, json, Gateway(cache, users, deps, isEmail, ip), credentials);
      !LoginUseCase.ValidateEmail(credentials.email) ==> x.calls == [] && x.result.Rejected?
    ensures var body := Some(Domain.LoginRequest(credentials.email, credentials.password));
      var x := LoginUseCase.Execute(store, json, Gateway(cache, users, deps, isEmail, ip), credentials);
      var s := AuthService.Authenticate(cache, users, deps, credentials.email, credentials.password, ip);
      LoginUseCase.ValidateEmail(credentials.email) ==>
        && (x.result.LoggedIn? <==> AuthHandler.Binds(body, isEmail) && s.result.Success?)
        && (x.result.LoggedIn? ==>
              x.result.user == ToClientUser(users[credentials.email])
              && x.store[LoginUseCase.TokenKey] == s.result.value.token)
  {
  }
}
