/**
 * The in-memory authentication state of the web client: restored from
 * storage once on start-up, set by `login`, cleared by `logout`.
 */
module AuthContext {
  import opened Entities
  import LoginUseCase

  /** The current user (any value `JSON.parse` gave, or a user set by login) and the loading flag. */
  datatype State = State(user: LoginUseCase.JsonValue, isLoading: bool)

  /** Before the start-up check: no user, loading. */
  const Initial: State := State(LoginUseCase.JNull, true)

  /** `isAuthenticated`: the current user is truthy. */
  predicate IsAuthenticated(s: State) {
    LoginUseCase.Truthy(s.user)
  }

  /**
   * The start-up effect on the initial state: adopt the stored user when it
   * is truthy and a token is present; stop loading either way.
   */
  function Mount(store: LoginUseCase.Storage, json: LoginUseCase.Json): (s: State)
    ensures !s.isLoading
    ensures IsAuthenticated(s) <==>
      LoginUseCase.Truthy(LoginUseCase.GetCurrentUser(store, json)) && LoginUseCase.IsAuthenticated(store)
    ensures IsAuthenticated(s) ==> s.user == LoginUseCase.GetCurrentUser(store, json)
    ensures !IsAuthenticated(s) ==> s.user == Initial.user
  {
    var stored := LoginUseCase.GetCurrentUser(store, json);
    var user := if LoginUseCase.Truthy(stored) && LoginUseCase.IsAuthenticated(store) then stored else Initial.user;
    State(user, false)
  }

  /** `login(user)`: only the in-memory user changes. */
  function Login(s: State, user: User): (s': State)
    ensures IsAuthenticated(s') && s'.user == LoginUseCase.JUser(user)
    ensures s'.isLoading == s.isLoading
  {
    s.(user := LoginUseCase.JUser(user))
  }

  /** `logout()`: clears the stored session and the in-memory user. */
  function Logout(s: State, store: LoginUseCase.Storage): (r: (State, LoginUseCase.Storage))
    ensures !IsAuthenticated(r.0) && r.0.isLoading == s.isLoading
    ensures r.1 == LoginUseCase.ClearSession(store)
    ensures !LoginUseCase.IsAuthenticated(r.1)
  {
    (s.(user := LoginUseCase.JNull), LoginUseCase.ClearSession(store))
  }

  // ------------------------------------------------------------ auth status

  /** The status the route guards observe. */
  datatype Phase = Unknown | Authenticated | Unauthenticated

  function PhaseOf(s: State): Phase {
    if s.isLoading then Unknown
    else if IsAuthenticated(s) then Authenticated
    else Unauthenticated
  }

  /**
   * The status machine: start in Unknown; start-up leads to Authenticated
   * exactly when a truthy user and a token are stored; after start-up,
   * login always leads to Authenticated and logout to Unauthenticated, and
   * neither returns to Unknown.
   */
  lemma PhaseTransitions(store: LoginUseCase.Storage, json: LoginUseCase.Json, s: State, user: User)
    ensures PhaseOf(Initial) == Unknown
    ensures PhaseOf(Mount(store, json)) == Authenticated <==>
      LoginUseCase.Truthy(LoginUseCase.GetCurrentUser(store, json)) && LoginUseCase.IsAuthenticated(store)
    ensures PhaseOf(Mount(store, json)) != Unknown
    ensures !s.isLoading ==> PhaseOf(Login(s, user)) == Authenticated
    ensures !s.isLoading ==> PhaseOf(Logout(s, store).0) == Unauthenticated
  {
  }

  /** The client's view and the stored token agree about being logged in. */
  predicate Agrees(s: State, store: LoginUseCase.Storage) {
    IsAuthenticated(s) <==> LoginUseCase.IsAuthenticated(store)
  }

  /**
   * Start-up with a token but no stored user leaves the client logged out
   * while the token says otherwise.
   */
  lemma MountCanDisagree(json: LoginUseCase.Json)
    ensures var store := map[LoginUseCase.TokenKey := "t"];
      !IsAuthenticated(Mount(store, json)) && LoginUseCase.IsAuthenticated(store)
  {
  }

  /**
   * Logging in through the use case and then into the context, or logging
   * out, leaves the two views in agreement, whatever held before.
   */
  lemma LoginAndLogoutRestoreAgreement(
    s: State, store: LoginUseCase.Storage, json: LoginUseCase.Json,
    gateway: Credentials -> Wrappers.Result<LoginResponse, Thrown>, credentials: Credentials)
    ensures Agrees(Logout(s, store).0, Logout(s, store).1)
    ensures var x := LoginUseCase.Execute(store, json, gateway, credentials);
      x.result.LoggedIn? && gateway(credentials).value.token != "" ==>
        Agrees(Login(s, x.result.user), x.store)
  {
  }
}
