/**
 * The HTTP gateway of the web client: base address selection, the login
 * call with its error normalisation, and a logout call that never fails.
 */
module AuthApiAdapter {
  import opened Wrappers
  import opened Entities

  const LogoutPath: string := "/api/auth/logout"

  /**
   * How a POST settles: a 2xx reply with its body; an HTTP-library error
   * with its response data (None when there was no response or its data
   * was falsy); or any other thrown value.
   */
  datatype Post<T> = Delivered(body: T) | HttpFailure(data: Option<Thrown>) | OtherFailure

  const NetworkError: Thrown :=
    Thrown(Some("network_error"), Some("No se pudo conectar al servidor. Verifica tu conexión."))
  const UnknownError: Thrown :=
    Thrown(Some("unknown_error"), Some("Ocurrió un error inesperado."))

  /**
   * The base address: the constructor argument when non-empty, else the
   * configured `VITE_API_URL` when set and non-empty, else the page origin.
   */
  function BaseUrl(argument: string, configured: Option<string>, origin: string): (url: string)
    ensures argument != "" ==> url == argument
    ensures argument == "" && configured.Some? && configured.value != "" ==> url == configured.value
    ensures argument == "" && (configured.None? || configured.value == "") ==> url == origin
  {
    if argument != "" then argument
    else if configured.Some? && configured.value != "" then configured.value
    else origin
  }

  /** An adapter instance: the base address its HTTP client was created with. */
  datatype Adapter = Adapter(baseUrl: string)

  /** `new AuthApiAdapter(argument)`. */
  function NewAdapter(argument: string, configured: Option<string>, origin: string): Adapter {
    Adapter(BaseUrl(argument, configured, origin))
  }

  /** The base without one or two trailing slashes (axios's `/\/?\/$/` replacement). */
  function TrimSlashes(base: string): (t: string)
    ensures t <= base && |base| - 2 <= |t|
    ensures forall k :: |t| <= k < |base| ==> base[k] == '/'
    ensures |base| > 0 && base[|base| - 1] == '/' ==> |t| < |base|
    ensures |base| >= 2 && base[|base| - 2..] == "//" ==> |t| == |base| - 2
  {
    if |base| >= 2 && base[|base| - 2..] == "//" then base[..|base| - 2]
    else if |base| >= 1 && base[|base| - 1] == '/' then base[..|base| - 1]
    else base
  }

  /** The path without its leading slashes. */
  function DropLeadingSlashes(path: string): (r: string)
    ensures |r| == 0 || r[0] != '/'
    ensures |r| <= |path| && path[|path| - |r|..] == r
    ensures forall k :: 0 <= k < |path| - |r| ==> path[k] == '/'
    decreases |path|
  {
    if |path| > 0 && path[0] == '/' then DropLeadingSlashes(path[1..]) else path
  }

  /**
   * The address a relative path is sent to (axios's `buildFullPath` and
   * `combineURLs`): the base less at most two trailing slashes, one slash,
   * then the path less its leading slashes; the path itself under an empty
   * base, and the base itself for an empty path.
   */
  function FullUrl(base: string, path: string): (url: string)
    ensures base == "" ==> url == path
    ensures base != "" && path == "" ==> url == base
    ensures base != "" && path != "" ==>
      var b := TrimSlashes(base);
      && |url| > |b| && url[..|b|] == b && url[|b|] == '/'
      && url[|b| + 1..] == DropLeadingSlashes(path)
  {
    if base == "" || path == "" then (if base == "" then path else base)
    else TrimSlashes(base) + "/" + DropLeadingSlashes(path)
  }

  /** `login(credentials)`: the reply body, or the normalised error it rejects with. */
  function Login(outcome: Post<LoginResponse>): (r: Result<LoginResponse, Thrown>)
    ensures r.Success? <==> outcome.Delivered?
    ensures r.Success? ==> r.value == outcome.body
  {
    match outcome
    case Delivered(body) => Success(body)
    case HttpFailure(Some(data)) => Failure(data)
    case HttpFailure(None) => Failure(NetworkError)
    case OtherFailure => Failure(UnknownError)
  }

  /** The authorization header sent with a logout. */
  function BearerHeader(token: string): string {
    "Bearer " + token
  }

  /** A logout: the address and Authorization header of the POST it sends, and how it settles. */
  datatype LogoutCall = LogoutCall(url: string, authorization: string, result: Result<(), Thrown>)

  /** `logout(token)`: sends the token as a bearer credential; whatever the POST does, the promise resolves. */
  function Logout(adapter: Adapter, token: string, outcome: Post<()>): (r: LogoutCall)
    ensures |r.authorization| == 7 + |token|
    ensures r.authorization[..7] == "Bearer " && r.authorization[7..] == token
    ensures r.result.Success?
  {
    LogoutCall(FullUrl(adapter.baseUrl, LogoutPath), BearerHeader(token), Success(()))
  }

  // --------------------------------------------------------------- properties

  /**
   * The three failure classes: response data is passed on verbatim, an
   * HTTP error without data becomes `network_error`, anything else becomes
   * `unknown_error`.
   */
  lemma LoginErrorClasses(outcome: Post<LoginResponse>)
    ensures outcome.HttpFailure? && outcome.data.Some? ==> Login(outcome) == Failure(outcome.data.value)
    ensures outcome.HttpFailure? && outcome.data.None? ==>
      Login(outcome).Failure? && Login(outcome).error.error == Some("network_error")
    ensures outcome.OtherFailure? ==>
      Login(outcome).Failure? && Login(outcome).error.error == Some("unknown_error")
  {
  }

  /** A rejection carries either the server's data or one of the two fixed errors. */
  lemma LoginRejectionOrigins(outcome: Post<LoginResponse>)
    requires Login(outcome).Failure?
    ensures var e := Login(outcome).error;
      (outcome.HttpFailure? && outcome.data == Some(e)) || e == NetworkError || e == UnknownError
  {
  }

  /**
   * The header identifies the token: two logouts send the same header
   * exactly when they carry the same token, whatever their outcomes.
   */
  lemma LogoutHeaderIdentifiesToken(
    adapter: Adapter, token: string, token': string, outcome: Post<()>, outcome': Post<()>)
    ensures Logout(adapter, token, outcome).authorization == Logout(adapter, token', outcome').authorization
      <==> token == token'
  {
    var h, h' := Logout(adapter, token, outcome).authorization, Logout(adapter, token', outcome').authorization;
    if h == h' {
      assert token == h[7..] == h'[7..] == token';
    }
  }

  /** The logout path already starts with exactly one slash. */
  lemma LogoutPathRelative()
    ensures DropLeadingSlashes(LogoutPath) == LogoutPath[1..]
    ensures "/" + LogoutPath[1..] == LogoutPath
  {
    assert LogoutPath[0] == '/' && LogoutPath[1] == 'a';
    assert DropLeadingSlashes(LogoutPath[1..]) == LogoutPath[1..];
  }

  /**
   * Where a logout goes: under a non-empty base, the base with at most two
   * trailing slashes removed, followed by `/api/auth/logout`. A base without
   * a trailing slash is kept whole; one ending in a single slash loses it;
   * one ending in two or more loses two.
   */
  lemma LogoutUrl(adapter: Adapter, token: string, outcome: Post<()>)
    requires adapter.baseUrl != ""
    ensures var url, b := Logout(adapter, token, outcome).url, adapter.baseUrl;
      && url == TrimSlashes(b) + LogoutPath
      && (b[|b| - 1] != '/' ==> url == b + LogoutPath)
      && (b[|b| - 1] == '/' && (|b| == 1 || b[|b| - 2] != '/') ==> url == b[..|b| - 1] + LogoutPath)
      && (|b| >= 2 && b[|b| - 2..] == "//" ==> url == b[..|b| - 2] + LogoutPath)
  {
    LogoutPathRelative();
  }

  /**
   * A non-empty constructor argument decides the address: the configured
   * `VITE_API_URL` and the page origin then make no difference.
   */
  lemma ArgumentOverridesEnvironment(
    argument: string, configured: Option<string>, configured': Option<string>, origin: string, origin': string)
    requires argument != ""
    ensures NewAdapter(argument, configured, origin) == NewAdapter(argument, configured', origin')
    ensures NewAdapter(argument, configured, origin).baseUrl == argument
  {
  }

  /**
   * The shared instance, `new AuthApiAdapter()`, with no `VITE_API_URL` set:
   * a logout goes to `/api/auth/logout` on the page's own origin.
   */
  lemma DefaultInstanceUsesOrigin(origin: string, token: string, outcome: Post<()>)
    requires origin != "" && origin[|origin| - 1] != '/'
    ensures Logout(NewAdapter("", None, origin), token, outcome).url == origin + LogoutPath
  {
    LogoutUrl(NewAdapter("", None, origin), token, outcome);
  }
}
