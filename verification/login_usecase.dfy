/**
 * The login use case of the web client: email shape check, one call to the
 * gateway, and the session kept in browser storage under two keys.
 */
module LoginUseCase {
  import opened Wrappers
  import opened Text
  import opened Entities

  // ------------------------------------------------------------ storage, JSON

  /** Browser local storage: string keys to string values. */
  type Storage = map<string, string>

  const TokenKey: string := "token"
  const UserKey: string := "user"

  /**
   * A value `JSON.parse` can return, as far as the client can tell them
   * apart: null, another falsy value, a user record, or some other truthy
   * value (the parsed value is cast to a user without any check).
   */
  datatype JsonValue = JNull | JFalsy | JUser(user: User) | JOther

  /** JavaScript truthiness of a parsed value. */
  predicate Truthy(v: JsonValue) {
    v.JUser? || v.JOther?
  }

  /** `JSON.stringify` on users and `JSON.parse` (None when it throws). */
  datatype Json = Json(stringify: User -> string, parse: string -> Option<JsonValue>)

  /** The codec reads back what it writes for `u`, and writes something non-empty. */
  predicate RoundTrips(json: Json, u: User) {
    json.stringify(u) != "" && json.parse(json.stringify(u)) == Some(JUser(u))
  }

  // ------------------------------------------------------------- email shape

  /** The characters JavaScript's `\s` matches. */
  predicate IsJsSpace(c: char) {
    || c == '\t' || c == '\n' || c == '\U{000B}' || c == '\U{000C}' || c == '\r' || c == ' '
    || c == '\U{00A0}' || c == '\U{1680}' || ('\U{2000}' <= c <= '\U{200A}')
    || c == '\U{2028}' || c == '\U{2029}' || c == '\U{202F}' || c == '\U{205F}'
    || c == '\U{3000}' || c == '\U{FEFF}'
  }

  /** No character of `s` is white space. */
  predicate NoSpace(s: string) {
    forall i :: 0 <= i < |s| ==> !IsJsSpace(s[i])
  }

  /** The domain has a dot that is neither its first nor its last character. */
  predicate DotInside(d: string) {
    exists k :: 0 < k < |d| - 1 && d[k] == '.'
  }

  /**
   * `validateEmail`: one `@`, no white space, a non-empty local part and a
   * dot strictly inside the domain.
   */
  predicate ValidateEmail(s: string) {
    var parts := Split(s, '@');
    NoSpace(s) && |parts| == 2 && |parts[0]| > 0 && DotInside(parts[1])
  }

  /** A run of characters matching `[^\s@]+`. */
  predicate Plain(s: string) {
    |s| > 0 && forall i :: 0 <= i < |s| ==> !IsJsSpace(s[i]) && s[i] != '@'
  }

  /** The language of `/^[^\s@]+@[^\s@]+\.[^\s@]+$/`. */
  ghost predicate MatchesEmailPattern(s: string) {
    exists i, j :: 0 < i < j < |s| && s[i] == '@' && s[j] == '.'
      && Plain(s[..i]) && Plain(s[i + 1..j]) && Plain(s[j + 1..])
  }

  /** `validateEmail` accepts exactly the strings the regular expression matches. */
  lemma ValidateEmailIsPattern(s: string)
    ensures ValidateEmail(s) <==> MatchesEmailPattern(s)
  {
    if ValidateEmail(s) {
      ValidImpliesPattern(s);
    }
    if MatchesEmailPattern(s) {
      PatternImpliesValid(s);
    }
  }

  lemma ValidImpliesPattern(s: string)
    requires ValidateEmail(s)
    ensures MatchesEmailPattern(s)
  {
    var parts := Split(s, '@');
    var a, d := parts[0], parts[1];
    JoinSplit(s, '@');
    assert parts[1..] == [d];
    assert s == a + "@" + d;
    var k :| 0 < k < |d| - 1 && d[k] == '.';
    var i, j := |a|, |a| + 1 + k;
    assert s[..i] == a;
    assert s[i + 1..j] == d[..k];
    assert s[j + 1..] == d[k + 1..];
    assert s[i] == '@' && s[j] == '.';
    forall x | 0 <= x < |s| ensures !IsJsSpace(s[x]) {}
    assert Plain(s[..i]) by {
      forall x | 0 <= x < |a| ensures !IsJsSpace(a[x]) && a[x] != '@' {
        assert a[x] == s[x];
      }
    }
    assert Plain(s[i + 1..j]) by {
      forall x | 0 <= x < k ensures !IsJsSpace(d[x]) && d[x] != '@' {
        assert d[x] == s[i + 1 + x];
      }
    }
    assert Plain(s[j + 1..]) by {
      forall x | k + 1 <= x < |d| ensures !IsJsSpace(d[x]) && d[x] != '@' {
        assert d[x] == s[i + 1 + x];
      }
    }
  }

  lemma PatternImpliesValid(s: string)
    requires MatchesEmailPattern(s)
    ensures ValidateEmail(s)
  {
    var i, j :| 0 < i < j < |s| && s[i] == '@' && s[j] == '.'
      && Plain(s[..i]) && Plain(s[i + 1..j]) && Plain(s[j + 1..]);
    PatternImpliesValidAt(s, i, j);
  }

  lemma PatternImpliesValidAt(s: string, i: int, j: int)
    requires 0 < i < j < |s| && s[i] == '@' && s[j] == '.'
    requires Plain(s[..i]) && Plain(s[i + 1..j]) && Plain(s[j + 1..])
    ensures ValidateEmail(s)
  {
    var a, b, c := s[..i], s[i + 1..j], s[j + 1..];
    var d := s[i + 1..];
    assert d == b + "." + c;
    assert s == a + "@" + d;
    DomainIsClean(b, c);
    assert '@' !in a by {
      forall x | 0 <= x < |a| ensures a[x] != '@' {}
    }
    SplitTwo(a, d);
    assert DotInside(d) by {
      assert d[|b|] == '.';
    }
    assert NoSpace(s) by {
      forall x | 0 <= x < |s| ensures !IsJsSpace(s[x]) {
        if x < i { assert s[x] == a[x]; }
        else if i < x { assert s[x] == d[x - i - 1]; }
      }
    }
  }

  /** An address with one `@` splits into local part and domain. */
  lemma SplitTwo(a: string, d: string)
    requires '@' !in a && '@' !in d
    ensures Split(a + "@" + d, '@') == [a, d]
  {
    assert Join([a, d], '@') == a + "@" + d by {
      assert [a, d][1..] == [d];
    }
    SplitJoin([a, d], '@');
  }

  /** `b.c` with `b` and `c` plain holds neither `@` nor white space. */
  lemma DomainIsClean(b: string, c: string)
    requires Plain(b) && Plain(c)
    ensures '@' !in b + "." + c
    ensures NoSpace(b + "." + c)
  {
    var d := b + "." + c;
    forall x | 0 <= x < |d| ensures d[x] != '@' && !IsJsSpace(d[x]) {
      if x < |b| { assert d[x] == b[x]; }
      else if x > |b| { assert d[x] == c[x - |b| - 1]; }
    }
  }

  /** Positions of the `@` and the dot witness a match. */
  lemma PatternWitness(s: string, i: int, j: int)
    requires 0 < i < j < |s| && s[i] == '@' && s[j] == '.'
    requires Plain(s[..i]) && Plain(s[i + 1..j]) && Plain(s[j + 1..])
    ensures MatchesEmailPattern(s)
  {
  }

  // ---------------------------------------------------------- the use case

  const ValidationMessage: string := "El formato del correo electrónico no es válido."
  const UnknownMessage: string := "Error desconocido."

  /** The message table of `mapError`. */
  function TableMessage(kind: Option<string>): Option<string> {
    match kind
    case Some("invalid_credentials") => Some("Email o contraseña incorrectos.")
    case Some("user_inactive") => Some("Su cuenta está desactivada. Contacte al administrador.")
    case Some("too_many_requests") => Some("Demasiados intentos fallidos. Intente en 15 minutos.")
    case Some("network_error") => Some("No se pudo conectar al servidor.")
    case _ => None
  }

  /**
   * `mapError`: keeps the error kind and picks the first truthy of the
   * table's message, the thrown message, and a generic one.
   */
  function MapError(e: Thrown): (r: AuthError)
    ensures r.error == e.error
    ensures r.message != ""
  {
    var message :=
      if TableMessage(e.error).Some? then TableMessage(e.error).value
      else if e.message.Some? && e.message.value != "" then e.message.value
      else UnknownMessage;
    AuthError(e.error, message)
  }

  /** `storeSession`. */
  function StoreSession(store: Storage, json: Json, response: LoginResponse): (s: Storage)
    ensures s.Keys == store.Keys + {TokenKey, UserKey}
    ensures s[TokenKey] == response.token && s[UserKey] == json.stringify(response.user)
    ensures s - {TokenKey, UserKey} == store - {TokenKey, UserKey}
  {
    store[TokenKey := response.token][UserKey := json.stringify(response.user)]
  }

  /** `isAuthenticated`: a truthy stored token. */
  predicate IsAuthenticated(store: Storage) {
    TokenKey in store && store[TokenKey] != ""
  }

  /** `getCurrentUser`: null when the entry is missing, empty or not JSON. */
  function GetCurrentUser(store: Storage, json: Json): (v: JsonValue)
    ensures UserKey !in store || store[UserKey] == "" ==> v == JNull
    ensures UserKey in store && store[UserKey] != "" && json.parse(store[UserKey]).None? ==> v == JNull
  {
    if UserKey !in store || store[UserKey] == "" then JNull
    else json.parse(store[UserKey]).GetOr(JNull)
  }

  /** `clearSession`. */
  function ClearSession(store: Storage): (s: Storage)
    ensures TokenKey !in s && UserKey !in s
    ensures s == store - {TokenKey, UserKey}
  {
    store - {TokenKey, UserKey}
  }

  datatype LoginResult = LoggedIn(user: User) | Rejected(error: AuthError)

  /** The result of `execute`, the storage after it, and the gateway calls it made. */
  datatype Execution = Execution(result: LoginResult, store: Storage, calls: seq<Credentials>)

  /** `execute(credentials)`; the gateway's promise is settled in one step. */
  function Execute(
    store: Storage, json: Json, gateway: Credentials -> Result<LoginResponse, Thrown>,
    credentials: Credentials): (x: Execution)
    ensures !ValidateEmail(credentials.email) ==>
      x == Execution(Rejected(AuthError(Some("validation_error"), ValidationMessage)), store, [])
    ensures ValidateEmail(credentials.email) ==> x.calls == [credentials]
    ensures x.result.LoggedIn? ==>
      gateway(credentials).Success?
      && x.result.user == gateway(credentials).value.user
      && x.store == StoreSession(store, json, gateway(credentials).value)
    ensures x.result.Rejected? ==> x.store == store
    ensures ValidateEmail(credentials.email) && gateway(credentials).Success? ==>
      x.result == LoggedIn(gateway(credentials).value.user)
    ensures ValidateEmail(credentials.email) && gateway(credentials).Failure? ==>
      x.result == Rejected(MapError(gateway(credentials).error))
  {
    if !ValidateEmail(credentials.email) then
      Execution(Rejected(AuthError(Some("validation_error"), ValidationMessage)), store, [])
    else
      match gateway(credentials)
      case Success(response) =>
        Execution(LoggedIn(response.user), StoreSession(store, json, response), [credentials])
      case Failure(e) =>
        Execution(Rejected(MapError(e)), store, [credentials])
  }

  // --------------------------------------------------------------- properties

  /**
   * The message chosen by `mapError`: the table's when the kind is listed,
   * else the thrown message when it is non-empty, else the generic one.
   */
  lemma MapErrorFallbacks(e: Thrown)
    ensures TableMessage(e.error).Some? ==> MapError(e).message == TableMessage(e.error).value
    ensures TableMessage(e.error).None? && e.message.Some? && e.message.value != "" ==>
      MapError(e).message == e.message.value
    ensures TableMessage(e.error).None? && (e.message.None? || e.message.value == "") ==>
      MapError(e).message == UnknownMessage
  {
  }

  /** Exactly four kinds have a table message. */
  lemma TableKinds(kind: Option<string>)
    ensures TableMessage(kind).Some? <==>
      kind in {Some("invalid_credentials"), Some("user_inactive"),
               Some("too_many_requests"), Some("network_error")}
  {
  }

  /**
   * Storing a session and reading it back: the token makes the client
   * authenticated exactly when it is non-empty, and the stored user reads
   * back as the response's user.
   */
  lemma StoreThenRead(store: Storage, json: Json, response: LoginResponse)
    requires RoundTrips(json, response.user)
    ensures var s := StoreSession(store, json, response);
      && (IsAuthenticated(s) <==> response.token != "")
      && GetCurrentUser(s, json) == JUser(response.user)
  {
  }

  /**
   * Clearing removes both entries, leaves the rest, is idempotent, and
   * leaves the client unauthenticated with no current user.
   */
  lemma ClearSessionProperties(store: Storage, json: Json)
    ensures var s := ClearSession(store);
      && ClearSession(s) == s
      && !IsAuthenticated(s)
      && GetCurrentUser(s, json) == JNull
  {
  }

  /** A successful attempt leaves the client authenticated with the returned user. */
  lemma ExecuteSuccessAuthenticates(
    store: Storage, json: Json, gateway: Credentials -> Result<LoginResponse, Thrown>,
    credentials: Credentials)
    requires ValidateEmail(credentials.email)
    requires gateway(credentials).Success?
    requires RoundTrips(json, gateway(credentials).value.user)
    requires gateway(credentials).value.token != ""
    ensures var x := Execute(store, json, gateway, credentials);
      && x.result == LoggedIn(gateway(credentials).value.user)
      && IsAuthenticated(x.store)
      && GetCurrentUser(x.store, json) == JUser(gateway(credentials).value.user)
  {
    StoreThenRead(store, json, gateway(credentials).value);
  }

  /** A failed attempt reports the mapped error and keeps the stored session. */
  lemma ExecuteFailureKeepsStore(
    store: Storage, json: Json, gateway: Credentials -> Result<LoginResponse, Thrown>,
    credentials: Credentials)
    requires ValidateEmail(credentials.email)
    requires gateway(credentials).Failure?
    ensures var x := Execute(store, json, gateway, credentials);
      && x.result == Rejected(MapError(gateway(credentials).error))
      && x.store == store
      && (IsAuthenticated(x.store) <==> IsAuthenticated(store))
  {
  }

  /** An address without `@` is refused. */
  lemma NoAtRefused(s: string)
    requires '@' !in s
    ensures !ValidateEmail(s)
  {
    SplitNoSeparator(s, '@');
  }

  /** The example of a well-formed address. */
  lemma ValidExample()
    ensures ValidateEmail("a@b.com")
  {
    var s := "a@b.com";
    assert s[..1] == "a" && s[2..3] == "b" && s[4..] == "com";
    PatternWitness(s, 1, 3);
    PatternImpliesValid(s);
  }

  /** The example of a malformed address. */
  lemma InvalidExample()
    ensures !ValidateEmail("bad-email")
  {
    NoAtRefused("bad-email");
  }
}
