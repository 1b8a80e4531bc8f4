/**
 * The authentication service: a per-client-IP counter of failed attempts
 * guards the credential check; a successful login clears the counter and
 * records a session for the email.
 */
module AuthService {
  import opened Wrappers
  import opened Domain
  import Cache

  /** Failed attempts from one IP that block further logins. */
  const MaxAttempts: int := 5

  const AttemptPrefix: string := "attempts:"

  /** The cache key counting failed attempts from `ip`. */
  function AttemptKey(ip: string): string {
    AttemptPrefix + ip
  }

  /**
   * The service's errors. `UserNotFound` is declared by the service but never
   * returned; `TokenFailure` is the error of the token manager, passed through.
   */
  datatype ServiceError =
    | InvalidCredentials
    | TooManyRequests
    | UserNotActive
    | UserNotFound
    | TokenFailure(reason: string)

  /** The text each sentinel error was created with. */
  function ErrorText(e: ServiceError): string {
    match e
    case InvalidCredentials => "invalid_credentials"
    case TooManyRequests => "too_many_requests"
    case UserNotActive => "user_not_active"
    case UserNotFound => "user_not_found"
    case TokenFailure(reason) => reason
  }

  /** The four sentinel errors have different texts, so the text identifies the error. */
  lemma SentinelTextsDistinct(e: ServiceError, e': ServiceError)
    requires !e.TokenFailure? && !e'.TokenFailure? && e != e'
    ensures ErrorText(e) != ErrorText(e')
  {
    assert |ErrorText(InvalidCredentials)| == 19 && |ErrorText(TooManyRequests)| == 17;
    assert |ErrorText(UserNotActive)| == 15 && |ErrorText(UserNotFound)| == 14;
  }

  /** The user table, keyed by the email a lookup is made with. */
  type Users = map<string, User>

  /**
   * Collaborators treated as black boxes: the password hasher's check
   * (stored hash, password) and the token manager (id, email, role).
   */
  datatype Deps = Deps(
    verify: (string, string) -> bool,
    generate: (string, string, string) -> Result<string, string>)

  /** The outcome of one call and the cache it leaves behind. */
  datatype Step = Step(result: Result<LoginResponse, ServiceError>, cache: Cache.Cache)

  /** `Authenticate(email, password, clientIP)`. */
  function Authenticate(
    cache: Cache.Cache, users: Users, deps: Deps,
    email: string, password: string, ip: string): (s: Step)
    ensures s.cache.up == cache.up
    ensures s.result == Failure(TooManyRequests)
      <==> Cache.AttemptsSeen(cache, AttemptKey(ip)) >= MaxAttempts
    ensures s.result.Success? <==>
      && Cache.AttemptsSeen(cache, AttemptKey(ip)) < MaxAttempts
      && email in users && users[email].isActive
      && deps.verify(users[email].passwordHash, password)
      && deps.generate(users[email].id, users[email].email, users[email].role).Success?
    ensures s.result.Success? ==>
      && s.result.value.user == users[email]
      && deps.generate(users[email].id, users[email].email, users[email].role)
         == Success(s.result.value.token)
    ensures s.result.Failure? ==> s.result.error != UserNotFound
  {
    var key := AttemptKey(ip);
    var attempts := Cache.AttemptsSeen(cache, key);
    if attempts >= MaxAttempts then
      Step(Failure(TooManyRequests), cache)
    else if email !in users then
      Step(Failure(InvalidCredentials), Cache.IncrAttempts(cache, key).cache)
    else
      var user := users[email];
      if !user.isActive then
        Step(Failure(UserNotActive), cache)
      else if !deps.verify(user.passwordHash, password) then
        Step(Failure(InvalidCredentials), Cache.IncrAttempts(cache, key).cache)
      else
        var reset := Cache.ResetAttempts(cache, key).cache;
        match deps.generate(user.id, user.email, user.role)
        case Failure(reason) => Step(Failure(TokenFailure(reason)), reset)
        case Success(token) =>
          Step(Success(LoginResponse(token, user)), Cache.SetSession(reset, email, token).cache)
  }

  /** `Logout(email)`: drops the session of `email`. */
  function Logout(cache: Cache.Cache, email: string): (w: Cache.Write)
    ensures w.err.None? <==> cache.up
    ensures w.err.None? ==> Cache.GetSession(w.cache, email).Failure?
    ensures Cache.SameElsewhere(cache, w.cache, Cache.SessionKey(email))
  {
    Cache.DeleteSession(cache, email)
  }

  // --------------------------------------------------------------- properties

  /** A counter key never collides with a session key. */
  lemma AttemptAndSessionKeysDiffer(ip: string, email: string)
    ensures AttemptKey(ip) != Cache.SessionKey(email)
  {
    assert AttemptKey(ip)[0] == 'a';
    assert Cache.SessionKey(email)[0] == 's';
  }

  /**
   * At the threshold the call is refused before the user table is consulted:
   * the outcome is the same for every user table, password and collaborator,
   * and the cache is left as it was.
   */
  lemma BlockedIgnoresEverythingElse(
    cache: Cache.Cache, users: Users, users': Users, deps: Deps, deps': Deps,
    email: string, password: string, password': string, ip: string)
    requires Cache.AttemptsSeen(cache, AttemptKey(ip)) >= MaxAttempts
    ensures Authenticate(cache, users, deps, email, password, ip)
      == Step(Failure(TooManyRequests), cache)
    ensures Authenticate(cache, users', deps', email, password', ip)
      == Authenticate(cache, users, deps, email, password, ip)
  {
  }

  /** An unknown email is a credential failure and counts one more failed attempt. */
  lemma UnknownEmailCountsFailure(
    cache: Cache.Cache, users: Users, deps: Deps, email: string, password: string, ip: string)
    requires Cache.AttemptsSeen(cache, AttemptKey(ip)) < MaxAttempts
    requires email !in users
    ensures var s := Authenticate(cache, users, deps, email, password, ip);
      && s.result == Failure(InvalidCredentials)
      && s.cache == Cache.IncrAttempts(cache, AttemptKey(ip)).cache
      && Cache.SameElsewhere(cache, s.cache, AttemptKey(ip))
      && (Cache.GetAttempts(cache, AttemptKey(ip)).Success? ==>
            Cache.AttemptsSeen(s.cache, AttemptKey(ip))
            == Cache.AttemptsSeen(cache, AttemptKey(ip)) + 1)
  {
    Cache.IncrAddsOne(cache, AttemptKey(ip));
  }

  /**
   * An inactive account is reported as such whatever the password (the
   * activity check comes before the password check), and the counter is
   * not touched.
   */
  lemma InactiveUserLeavesCounter(
    cache: Cache.Cache, users: Users, deps: Deps, email: string, password: string, ip: string)
    requires Cache.AttemptsSeen(cache, AttemptKey(ip)) < MaxAttempts
    requires email in users && !users[email].isActive
    ensures Authenticate(cache, users, deps, email, password, ip)
      == Step(Failure(UserNotActive), cache)
  {
  }

  /** A wrong password for an active account counts one more failed attempt. */
  lemma WrongPasswordCountsFailure(
    cache: Cache.Cache, users: Users, deps: Deps, email: string, password: string, ip: string)
    requires Cache.AttemptsSeen(cache, AttemptKey(ip)) < MaxAttempts
    requires email in users && users[email].isActive
    requires !deps.verify(users[email].passwordHash, password)
    ensures var s := Authenticate(cache, users, deps, email, password, ip);
      && s.result == Failure(InvalidCredentials)
      && Cache.SameElsewhere(cache, s.cache, AttemptKey(ip))
      && (Cache.GetAttempts(cache, AttemptKey(ip)).Success? ==>
            Cache.AttemptsSeen(s.cache, AttemptKey(ip))
            == Cache.AttemptsSeen(cache, AttemptKey(ip)) + 1)
  {
    Cache.IncrAddsOne(cache, AttemptKey(ip));
  }

  /**
   * A successful login clears the counter, stores the issued token as the
   * session of the email, and changes no other key.
   */
  lemma SuccessResetsAndStoresSession(
    cache: Cache.Cache, users: Users, deps: Deps, email: string, password: string, ip: string)
    requires cache.up
    requires Authenticate(cache, users, deps, email, password, ip).result.Success?
    ensures var s := Authenticate(cache, users, deps, email, password, ip);
      && Cache.GetAttempts(s.cache, AttemptKey(ip)) == Success(0)
      && Cache.GetSession(s.cache, email) == Success(s.result.value.token)
      && s.cache.entries - {AttemptKey(ip), Cache.SessionKey(email)}
         == cache.entries - {AttemptKey(ip), Cache.SessionKey(email)}
  {
    AttemptAndSessionKeysDiffer(ip, email);
  }

  /**
   * With the cache unreachable the failed read counts as zero: nobody is
   * blocked, no counter moves, and a successful login stores no session.
   */
  lemma UnreachableCacheNeverBlocks(
    cache: Cache.Cache, users: Users, deps: Deps, email: string, password: string, ip: string)
    requires !cache.up
    ensures var s := Authenticate(cache, users, deps, email, password, ip);
      && s.result != Failure(TooManyRequests)
      && s.cache == cache
  {
  }

  /** Logout drops the session of that email and nothing else. */
  lemma LogoutOnlyThatSession(cache: Cache.Cache, email: string, other: string, ip: string)
    requires cache.up && other != email
    ensures var c' := Logout(cache, email).cache;
      && Cache.GetSession(c', email).Failure?
      && Cache.GetSession(c', other) == Cache.GetSession(cache, other)
      && Cache.GetAttempts(c', AttemptKey(ip)) == Cache.GetAttempts(cache, AttemptKey(ip))
  {
    AttemptAndSessionKeysDiffer(ip, email);
    Cache.SessionKeyInjective(email, other);
  }

  // ----------------------------------------------------- repeated attempts

  /** One login attempt from the client at a fixed IP. */
  datatype Attempt = Attempt(email: string, password: string)

  /** Runs the attempts in order from one IP, threading the cache. */
  function Replay(cache: Cache.Cache, users: Users, deps: Deps, ip: string, attempts: seq<Attempt>)
    : (r: (seq<Result<LoginResponse, ServiceError>>, Cache.Cache))
    ensures |r.0| == |attempts|
    decreases |attempts|
  {
    if |attempts| == 0 then ([], cache)
    else
      var s := Authenticate(cache, users, deps, attempts[0].email, attempts[0].password, ip);
      var rest := Replay(s.cache, users, deps, ip, attempts[1..]);
      ([s.result] + rest.0, rest.1)
  }

  /** Number of credential failures among the results. */
  function CountInvalid(rs: seq<Result<LoginResponse, ServiceError>>): nat {
    if |rs| == 0 then 0
    else (if rs[0] == Failure(InvalidCredentials) then 1 else 0) + CountInvalid(rs[1..])
  }

  /** True when no result reached the step that clears the counter. */
  predicate NoReset(rs: seq<Result<LoginResponse, ServiceError>>) {
    forall i :: 0 <= i < |rs| ==> rs[i].Failure? && !rs[i].error.TokenFailure?
  }

  /**
   * The rate limit: as long as no attempt gets past the password check, a
   * client IP gets at most `MaxAttempts` credential failures in all, however
   * many attempts it makes (provided the cache is reachable and the counter
   * key holds a number or nothing).
   */
  lemma {:induction false} RateLimitCapsFailures(
    cache: Cache.Cache, users: Users, deps: Deps, ip: string, attempts: seq<Attempt>)
    requires cache.up
    requires Cache.GetAttempts(cache, AttemptKey(ip)).Success?
    requires NoReset(Replay(cache, users, deps, ip, attempts).0)
    ensures var n := Cache.AttemptsSeen(cache, AttemptKey(ip));
      CountInvalid(Replay(cache, users, deps, ip, attempts).0)
      <= if n >= MaxAttempts then 0 else MaxAttempts - n
    decreases |attempts|
  {
    if |attempts| > 0 {
      var key := AttemptKey(ip);
      var s := Authenticate(cache, users, deps, attempts[0].email, attempts[0].password, ip);
      var rest := Replay(s.cache, users, deps, ip, attempts[1..]);
      var rs := Replay(cache, users, deps, ip, attempts).0;
      assert rs == [s.result] + rest.0;
      assert rs[1..] == rest.0;
      assert NoReset(rest.0) by {
        forall i | 0 <= i < |rest.0|
          ensures rest.0[i].Failure? && !rest.0[i].error.TokenFailure?
        {
          assert rest.0[i] == rs[i + 1];
        }
      }
      assert rs[0] == s.result;
      if s.result == Failure(InvalidCredentials) {
        Cache.IncrAddsOne(cache, key);
      }
      RateLimitCapsFailures(s.cache, users, deps, ip, attempts[1..]);
    }
  }
}
