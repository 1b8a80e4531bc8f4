/**
 * The Redis client used for rate limiting and sessions, as operations on a
 * key-value map. Expiry times are not modelled. When the server is down
 * (`up == false`) every operation fails and changes nothing.
 */
module Cache {
  import opened Wrappers
  import opened Text

  /** What a key holds: a counter written by INCR, or an arbitrary string. */
  datatype Value = Int(n: int) | Str(s: string)

  /** `redis.Nil`, a type error on INCR or on reading an integer, or a dead connection. */
  datatype CacheError = KeyMissing | NotAnInteger | Unreachable

  datatype Cache = Cache(entries: map<string, Value>, up: bool)

  /** The new state and the error, if any, of a write. */
  datatype Write = Write(cache: Cache, err: Option<CacheError>)

  const SessionPrefix: string := "session:"

  /** The key under which the session of `email` is stored. */
  function SessionKey(email: string): string {
    SessionPrefix + email
  }

  /** True when `c` and `c'` agree on every key other than `key`. */
  predicate SameElsewhere(c: Cache, c': Cache, key: string) {
    c'.up == c.up && c'.entries - {key} == c.entries - {key}
  }

  /** GET key, read as an integer: a missing key reads as 0 without error. */
  function GetAttempts(c: Cache, key: string): (r: Result<int, CacheError>)
    ensures r.Failure? <==> !c.up || (key in c.entries && c.entries[key].Str?)
  {
    if !c.up then Failure(Unreachable)
    else if key !in c.entries then Success(0)
    else match c.entries[key]
      case Int(n) => Success(n)
      case Str(_) => Failure(NotAnInteger)
  }

  /**
   * The count the caller sees: the Go client returns 0 together with the
   * error when the read fails.
   */
  function AttemptsSeen(c: Cache, key: string): (n: int)
    ensures !c.up ==> n == 0
    ensures c.up && key !in c.entries ==> n == 0
    ensures c.up && key in c.entries ==> n == (if c.entries[key].Int? then c.entries[key].n else 0)
  {
    GetAttempts(c, key).GetOr(0)
  }

  /** INCR key (the accompanying EXPIRE is not modelled). */
  function IncrAttempts(c: Cache, key: string): (w: Write)
    ensures w.err.None? <==> c.up && (key !in c.entries || c.entries[key].Int?)
    ensures w.err.Some? ==> w.cache == c
    ensures SameElsewhere(c, w.cache, key)
  {
    if !c.up then Write(c, Some(Unreachable))
    else if key !in c.entries then Write(c.(entries := c.entries[key := Int(1)]), None)
    else match c.entries[key]
      case Int(n) => Write(c.(entries := c.entries[key := Int(n + 1)]), None)
      case Str(_) => Write(c, Some(NotAnInteger))
  }

  /** DEL key. */
  function ResetAttempts(c: Cache, key: string): (w: Write)
    ensures w.err.None? <==> c.up
    ensures w.err.Some? ==> w.cache == c
    ensures w.err.None? ==> key !in w.cache.entries
    ensures SameElsewhere(c, w.cache, key)
  {
    if !c.up then Write(c, Some(Unreachable))
    else Write(c.(entries := c.entries - {key}), None)
  }

  /** SET session:{email} token. */
  function SetSession(c: Cache, email: string, token: string): (w: Write)
    ensures w.err.None? <==> c.up
    ensures w.err.Some? ==> w.cache == c
    ensures w.err.None? ==>
      SessionKey(email) in w.cache.entries && w.cache.entries[SessionKey(email)] == Str(token)
    ensures SameElsewhere(c, w.cache, SessionKey(email))
  {
    if !c.up then Write(c, Some(Unreachable))
    else Write(c.(entries := c.entries[SessionKey(email) := Str(token)]), None)
  }

  /** DEL session:{email}. */
  function DeleteSession(c: Cache, email: string): (w: Write)
    ensures w.err.None? <==> c.up
    ensures w.err.Some? ==> w.cache == c
    ensures w.err.None? ==> SessionKey(email) !in w.cache.entries
    ensures SameElsewhere(c, w.cache, SessionKey(email))
  {
    if !c.up then Write(c, Some(Unreachable))
    else Write(c.(entries := c.entries - {SessionKey(email)}), None)
  }

  /** Decimal text of an integer, as GET returns an INCR-written counter. */
  function IntText(n: int): string {
    if n < 0 then "-" + Show(-n) else Show(n)
  }

  /** GET session:{email}. */
  function GetSession(c: Cache, email: string): (r: Result<string, CacheError>)
    ensures r.Failure? <==> !c.up || SessionKey(email) !in c.entries
  {
    var key := SessionKey(email);
    if !c.up then Failure(Unreachable)
    else if key !in c.entries then Failure(KeyMissing)
    else match c.entries[key]
      case Str(s) => Success(s)
      case Int(n) => Success(IntText(n))
  }

  // --------------------------------------------------------------- properties

  /** A key nobody wrote reads as zero attempts, without error. */
  lemma MissingKeyReadsZero(c: Cache, key: string)
    requires c.up && key !in c.entries
    ensures GetAttempts(c, key) == Success(0)
  {
  }

  /**
   * INCR adds exactly one to what GET reads (a missing key counting as 0)
   * and touches no other key; on a string value or a dead server it fails
   * and changes nothing.
   */
  lemma IncrAddsOne(c: Cache, key: string)
    ensures var w := IncrAttempts(c, key);
      && SameElsewhere(c, w.cache, key)
      && (GetAttempts(c, key).Success? ==>
            w.err.None? && GetAttempts(w.cache, key) == Success(GetAttempts(c, key).value + 1))
      && (GetAttempts(c, key).Failure? ==> w.err.Some? && w.cache == c)
  {
  }

  /** After DEL the counter reads 0, nothing else changes, and a second DEL is a no-op. */
  lemma ResetClears(c: Cache, key: string)
    requires c.up
    ensures var c' := ResetAttempts(c, key).cache;
      && GetAttempts(c', key) == Success(0)
      && SameElsewhere(c, c', key)
      && ResetAttempts(c', key).cache == c'
  {
  }

  /** Reading a session back returns the token just stored; other keys are untouched. */
  lemma SetThenGetSession(c: Cache, email: string, token: string)
    requires c.up
    ensures var c' := SetSession(c, email, token).cache;
      && GetSession(c', email) == Success(token)
      && SameElsewhere(c, c', SessionKey(email))
  {
  }

  /** DEL session:{email} removes that key only. */
  lemma DeleteSessionOnlyThatKey(c: Cache, email: string)
    ensures var w := DeleteSession(c, email);
      && SameElsewhere(c, w.cache, SessionKey(email))
      && (c.up ==> w.err.None? && GetSession(w.cache, email) == Failure(KeyMissing))
      && (!c.up ==> w.cache == c)
  {
  }

  /** Sessions of different emails live under different keys. */
  lemma SessionKeyInjective(e1: string, e2: string)
    requires e1 != e2
    ensures SessionKey(e1) != SessionKey(e2)
  {
    var k1, k2 := SessionKey(e1), SessionKey(e2);
    assert k1[|SessionPrefix|..] == e1;
    assert k2[|SessionPrefix|..] == e2;
  }
}
