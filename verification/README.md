# Login flow of the Qontrol auth service and web-admin client, in Dafny

This project models the login path of two programs and proves properties
about it. The first is the Go authentication service: its Redis-backed attempt
counter and sessions, `AuthService.Authenticate` and `Logout`, the gin handler
that turns service errors into HTTP replies, and the Argon2id hash string
format. The second is the TypeScript admin client: `LoginUseCase`
(e-mail check, storage of the session, error messages), `AuthApiAdapter` (the
HTTP gateway), `AuthContext` (in-memory login state) and the route guards of
`App.tsx`. A final module joins the two across the wire.

Modules, one per component:

- `Wrappers` (`Option`, `Result`) and `Text` (`strings.Split`, decimal `%d`
  rendering and scanning) are shared helpers.
- `Domain` and `Entities` hold the records of the service and of the client.
- `Cache` is the Redis client. Redis is a map from keys to `Int` counters or
  `Str` strings, plus an `up` flag. While Redis is unreachable every operation
  fails and changes nothing.
- `AuthService`, `AuthHandler`, `Base64` (raw standard encoding, both directions)
  and `Argon2` model the service.
- `LoginUseCase`, `AuthApiAdapter`, `AuthContext` and `App` model the client.
- `EndToEnd` connects them.

The collaborators that cannot be seen or are not deterministic are
parameters. These are the user repository (a map from e-mail to user), the
password check and the JWT generator (`AuthService.Deps`), the Argon2 key
derivation (`Argon2.Kdf`), base64 decoding (`Argon2.Decoder`), gin's e-mail
validator (`isEmail`), `JSON.stringify`/`JSON.parse` (`LoginUseCase.Json`),
the outcome of each HTTP call (`AuthApiAdapter.Post`), and the configured API
address and page origin. `localStorage` is a `map<string, string>` passed in
and returned.

Some behaviour of the code is worth stating plainly:

- At start-up a stored token with a missing or unparsable `user` entry
  leaves the client logged out (`AuthContext.MountCanDisagree`). Login and
  logout restore agreement between the stored token and the in-memory user
  (`AuthContext.LoginAndLogoutRestoreAgreement`).
- The comment in `auth_service.go` says "attempts > 5". The code blocks at
  `attempts >= 5`, and so does the model.
- `ErrUserNotFound` is declared but never returned. An unknown e-mail is an
  `invalid_credentials` failure that counts an attempt.
- The HTTP `Logout` handler does not call the service's `Logout`. It only
  answers 200, so no session is removed over HTTP. `AuthContext.logout`
  does not call `authApi.logout` either.
- If JWT generation fails after a correct password, the attempt counter has
  already been reset. The client gets a 500 and no session is stored.
- The client's `too_many_requests` message differs from the server's
  (`EndToEnd.TooManyRequestsReworded`).

## Model

| member | source | states |
|---|---|---|
| Text.Split | apps/auth-service/internal/infrastructure/crypto/argon2.go:40 | Splitting on `$` gives one more field than there are separators, and no field contains a separator. |
| Text.JoinSplit | apps/auth-service/internal/infrastructure/crypto/argon2.go:40 | No text is lost by splitting: joining the fields back with the separator gives the original string. |
| Text.SplitJoin | apps/auth-service/internal/infrastructure/crypto/argon2.go:40 | Splitting a join of separator-free fields gives back exactly those fields. |
| Text.SplitNoSeparator | apps/auth-service/internal/infrastructure/crypto/argon2.go:40-44 | A string without a separator is a single field. |
| Text.JoinCons | apps/auth-service/internal/infrastructure/crypto/argon2.go:40 | Joining puts exactly one separator between a first piece and the join of a non-empty rest. |
| Text.ScanShow | apps/auth-service/internal/infrastructure/crypto/argon2.go:55 | `%d` reads back any rendered number and stops at the first non-digit after it. |
| Text.ValueOfShow | apps/auth-service/internal/infrastructure/crypto/argon2.go:115-116 | Reading the decimal rendering of a number gives the number. |
| Cache.GetAttempts | apps/auth-service/internal/infrastructure/cache/redis_client.go:27-33 | Reading a counter fails exactly when Redis is unreachable or the key holds a non-integer. A missing key is not an error. |
| Cache.AttemptsSeen | apps/auth-service/internal/infrastructure/cache/redis_client.go:27-33 | The count the service sees: the stored counter, or 0 when the key is missing, holds a non-integer, or Redis is unreachable. `AuthService.UnreachableCacheNeverBlocks` relies on it. |
| Cache.IncrAttempts | apps/auth-service/internal/infrastructure/cache/redis_client.go:37-43 | INCR succeeds exactly when Redis is up and the key is missing or holds an integer. On failure nothing changes, and no other key ever changes. `Cache.IncrAddsOne` gives the new value. |
| Cache.ResetAttempts | apps/auth-service/internal/infrastructure/cache/redis_client.go:47-49 | DEL succeeds exactly when Redis is up, then the key is gone. No other key changes. `Cache.ResetClears` gives the read-back. |
| Cache.SetSession | apps/auth-service/internal/infrastructure/cache/redis_client.go:53-55 | SET succeeds exactly when Redis is up, then `session:`+email holds the token. No other key changes. `Cache.SetThenGetSession` gives the read-back. |
| Cache.DeleteSession | apps/auth-service/internal/infrastructure/cache/redis_client.go:58-60 | DEL of `session:`+email succeeds exactly when Redis is up, then that key is gone. No other key changes. |
| Cache.MissingKeyReadsZero | apps/auth-service/internal/infrastructure/cache/redis_client.go:29-31 | A key nobody wrote reads as 0 attempts, without error. |
| Cache.IncrAddsOne | apps/auth-service/internal/infrastructure/cache/redis_client.go:37-43 | INCR raises the counter by exactly one (missing counts as 0) and leaves every other key alone. If the read would fail, INCR fails and changes nothing. |
| Cache.ResetClears | apps/auth-service/internal/infrastructure/cache/redis_client.go:47-49 | After DEL the counter reads 0, no other key changes, and a second DEL changes nothing. |
| Cache.GetSession | apps/auth-service/internal/infrastructure/cache/redis_client.go:63-65 | Reading a session fails exactly when Redis is unreachable or no session is stored for the e-mail. |
| Cache.SetThenGetSession | apps/auth-service/internal/infrastructure/cache/redis_client.go:53-65 | A stored token reads back unchanged, and no other key changes. |
| Cache.DeleteSessionOnlyThatKey | apps/auth-service/internal/infrastructure/cache/redis_client.go:58-60 | Deleting a session removes only that e-mail's key. The session then reads as missing. |
| Cache.SessionKeyInjective | apps/auth-service/internal/infrastructure/cache/redis_client.go:54 | Different e-mails have different session keys. |
| AuthService.ErrorText | apps/auth-service/internal/core/services/auth_service.go:13-18 | The text each sentinel error is created with; `AuthHandler.InactiveCodeDiffersFromServiceText` shows the client is sent a different code for the inactive account. |
| AuthService.SentinelTextsDistinct | apps/auth-service/internal/core/services/auth_service.go:14-17 | The four sentinel errors have pairwise different texts. |
| AuthService.Authenticate | apps/auth-service/internal/core/services/auth_service.go:75-138 | The reachability of the cache is kept. The call fails with TooManyRequests exactly when the counter it reads is at least 5. It succeeds exactly when the user exists, is active, the password verifies and a token is issued. Success returns that user and token. `UserNotFound` is never returned. |
| AuthService.AttemptAndSessionKeysDiffer | apps/auth-service/internal/core/services/auth_service.go:76 | An attempt counter key never collides with a session key. |
| AuthService.BlockedIgnoresEverythingElse | apps/auth-service/internal/core/services/auth_service.go:85-89 | A blocked IP gets TooManyRequests before any lookup. The outcome does not depend on the user table, the password or the collaborators, and the cache is unchanged. |
| AuthService.UnknownEmailCountsFailure | apps/auth-service/internal/core/services/auth_service.go:91-98 | An unknown e-mail is InvalidCredentials. The counter goes up by one and nothing else changes. |
| AuthService.InactiveUserLeavesCounter | apps/auth-service/internal/core/services/auth_service.go:100-104 | An inactive account is UserNotActive whatever the password, and the cache is untouched. |
| AuthService.WrongPasswordCountsFailure | apps/auth-service/internal/core/services/auth_service.go:106-112 | A wrong password for an active account is InvalidCredentials. The counter goes up by one and nothing else changes. |
| AuthService.SuccessResetsAndStoresSession | apps/auth-service/internal/core/services/auth_service.go:114-137 | After a success the counter reads 0 and the session of the e-mail holds the issued token. No other key changes. |
| AuthService.UnreachableCacheNeverBlocks | apps/auth-service/internal/core/services/auth_service.go:78-89 | With Redis unreachable the failed read counts as 0, so no one is blocked and no cache state changes. |
| AuthService.Logout | apps/auth-service/internal/core/services/auth_service.go:141-143 | Logout succeeds exactly when Redis is up. The e-mail's session then reads as missing, and no other key changes. |
| AuthService.LogoutOnlyThatSession | apps/auth-service/internal/core/services/auth_service.go:140-143 | Logout removes that e-mail's session. Other sessions and the attempt counters are untouched. |
| AuthService.RateLimitCapsFailures | apps/auth-service/internal/core/services/auth_service.go:85-111 | Over any sequence of attempts from one IP that never passes the password check, there are at most 5 credential failures, less those already counted. |
| AuthHandler.ErrorReply | apps/auth-service/internal/adapters/handlers/auth_handler.go:40-66 | Every service error becomes an error body with status 401, 403, 429 or 500. |
| AuthHandler.ErrorReplyTable | apps/auth-service/internal/adapters/handlers/auth_handler.go:41-66 | Each status comes with exactly one error code: 429 too_many_requests, 401 invalid_credentials, 403 user_inactive, 500 internal_error. 429, 401 and 403 each come from exactly one service error. |
| AuthHandler.CodesDistinct | apps/auth-service/internal/adapters/handlers/auth_handler.go:41-66 | The four error codes of the replies are pairwise different. |
| AuthHandler.InactiveCodeDiffersFromServiceText | apps/auth-service/internal/adapters/handlers/auth_handler.go:54-59 | The client sees `user_inactive`, not the service error's own text `user_not_active`. |
| AuthHandler.Binds | apps/auth-service/internal/core/domain/user.go:16-19 | `ShouldBindJSON` succeeds exactly when the body is JSON of the request's shape, the e-mail is non-empty and passes the e-mail check, and the password is non-empty with at least 6 characters. `AuthHandler.ShortPasswordRefused` and `AuthHandler.UnboundBodyLeavesCache` are stated in its terms. |
| AuthHandler.Login | apps/auth-service/internal/adapters/handlers/auth_handler.go:23-72 | A body that does not bind gets 400 invalid_request and the cache is unchanged. Otherwise the reply is 200 with the service's response or the mapped error, and the cache is the one the service leaves. |
| AuthHandler.UnboundBodyLeavesCache | apps/auth-service/internal/adapters/handlers/auth_handler.go:24-32 | A request that does not bind never reaches the service. |
| AuthHandler.ShortPasswordRefused | apps/auth-service/internal/core/domain/user.go:18 | A password shorter than six characters is refused with 400 by binding alone. |
| AuthHandler.Logout | apps/auth-service/internal/adapters/handlers/auth_handler.go:75-81 | Logout answers 200 with a message and touches no session. |
| Base64.Encode | apps/auth-service/internal/infrastructure/crypto/argon2.go:112-113 | Unpadded base64 of n bytes has ceil(8n/6) characters, all from the standard alphabet. |
| Base64.EncodeHasNoDollar | apps/auth-service/internal/infrastructure/crypto/argon2.go:112-115 | Encoded salt and key never contain the field separator `$`. |
| Base64.Value | apps/auth-service/internal/infrastructure/crypto/argon2.go:63 | Reading an alphabet character gives a six-bit value that the encoder writes back as the same character. |
| Base64.Decode | apps/auth-service/internal/infrastructure/crypto/argon2.go:63-75 | Decoding succeeds exactly when every character is in the alphabet and the length is not 1 modulo 4. A decoded text of n characters gives floor(6n/8) bytes. |
| Base64.EncodeStep | apps/auth-service/internal/infrastructure/crypto/argon2.go:112-113 | The encoder works in groups: dropping the first three bytes drops the first four characters. |
| Base64.DecodeEncodeStep | apps/auth-service/internal/infrastructure/crypto/argon2.go:63-75 | A full group of three bytes survives encoding then decoding, given that the rest does. |
| Base64.DecodeEncodeShort | apps/auth-service/internal/infrastructure/crypto/argon2.go:63-75 | A final group of one or two bytes survives encoding then decoding; the padding bits are ignored. |
| Base64.DecodeEncode | apps/auth-service/internal/infrastructure/crypto/argon2.go:63-75 | Round trip: decoding what the encoder of `Hash` wrote gives back the bytes, for every byte sequence. |
| Argon2.ParseParams | apps/auth-service/internal/infrastructure/crypto/argon2.go:53-59 | Parsed parameters fit the Go variables: memory and iterations below 2^32, parallelism below 2^8. |
| Argon2.FormatParams | apps/auth-service/internal/infrastructure/crypto/argon2.go:115-116 | The `m=%d,t=%d,p=%d` rendering; `Argon2.ParamsRoundTrip` states that `Sscanf` reads it back as the same parameters. |
| Argon2.ParamsRoundTrip | apps/auth-service/internal/infrastructure/crypto/argon2.go:53-59 | A rendered `m=..,t=..,p=..` field reads back as the same parameters. |
| Argon2.ParseFormatParams | apps/auth-service/internal/infrastructure/crypto/argon2.go:55 | The same holds when any non-digit text follows the field. |
| Argon2.ParseParamsSteps | apps/auth-service/internal/infrastructure/crypto/argon2.go:55 | The scan succeeds when its three `<literal>%d` steps succeed in turn, giving the three numbers. |
| Argon2.ScanFieldShow | apps/auth-service/internal/infrastructure/crypto/argon2.go:55 | One `<literal>%d` step reads back its number and leaves the rest. |
| Argon2.Parse | apps/auth-service/internal/infrastructure/crypto/argon2.go:39-75 | A hash string parses only if it has six `$` fields, algorithm `argon2id`, readable parameters, and salt and key that decode. The result holds the decoded values. |
| Argon2.Verify | apps/auth-service/internal/infrastructure/crypto/argon2.go:36-93 | A match is possible only for a well-formed hash string. |
| Argon2.WrongFieldCountFails | apps/auth-service/internal/infrastructure/crypto/argon2.go:40-44 | A string with a separator count other than five never verifies. |
| Argon2.VerifyIgnoresVersion | apps/auth-service/internal/infrastructure/crypto/argon2.go:40-50 | The verdict depends neither on the version field nor on the text before the first `$`. |
| Argon2.DefaultParamsText | apps/auth-service/internal/infrastructure/crypto/argon2.go:115-116 | `Hash` writes the parameter field `m=65536,t=3,p=4`. |
| Argon2.FixedSaltLength | apps/auth-service/internal/infrastructure/crypto/argon2.go:97-100 | The salt is the 16 bytes of `somesalt12345678`, filling the salt buffer exactly. |
| Argon2.LayoutIsJoin | apps/auth-service/internal/infrastructure/crypto/argon2.go:115-116 | The formatted hash string is the `$`-join of an empty lead field and the five fields. |
| Argon2.LayoutFields | apps/auth-service/internal/infrastructure/crypto/argon2.go:115-116 | The `$`-joined layout splits back into an empty lead field and the five fields. |
| Argon2.ConstantFieldsHaveNoDollar | apps/auth-service/internal/infrastructure/crypto/argon2.go:111-116 | The algorithm, version, parameter and salt fields hold no separator. |
| Argon2.Hash | apps/auth-service/internal/infrastructure/crypto/argon2.go:96-117 | The encoded hash with the fixed salt and default parameters; `Argon2.HashFields` gives its six fields and `Argon2.HashThenVerifyBase64` shows that `Verify` accepts it for the same password. |
| Argon2.HashFields | apps/auth-service/internal/infrastructure/crypto/argon2.go:96-117 | A string from `Hash` splits into exactly: empty, `argon2id`, `v=19`, the parameters, the encoded salt, the encoded key. |
| Argon2.FieldsPassStructure | apps/auth-service/internal/infrastructure/crypto/argon2.go:40-59 | The field list `Hash` lays out passes the structural checks of `Verify` for any salt and key, and its parameters read back. |
| Argon2.HashPassesStructure | apps/auth-service/internal/infrastructure/crypto/argon2.go:40-59 | A string from `Hash` passes every structural check of `Verify`, and its parameters read back as the defaults. |
| Argon2.ParseHash | apps/auth-service/internal/infrastructure/crypto/argon2.go:39-75 | Parsing a string from `Hash` recovers the default parameters, the fixed salt and the derived key, given a decoder that inverts the encoder. |
| Argon2.HashThenVerify | apps/auth-service/internal/infrastructure/crypto/argon2.go:79-92 | Round trip, given a decoder that inverts the encoder and a 32-byte key: the hash of a password verifies it. It verifies another password exactly when the derivation gives it the same key. |
| Argon2.HashThenVerifyBase64 | apps/auth-service/internal/infrastructure/crypto/argon2.go:63-92 | The same round trip with the raw base64 decoder itself, assuming only a 32-byte key: the hash of a password verifies it, and another password exactly when its key is the same. |
| Argon2.KdfPanics | apps/auth-service/internal/infrastructure/crypto/argon2.go:79-86 | The parsed values `argon2.IDKey` refuses with a panic: zero iterations, zero parallelism, or a zero key length. |
| Argon2.VerifyAsWritten | apps/auth-service/internal/infrastructure/crypto/argon2.go:37-92 | The source's Verify panics exactly when the stored hash is shorter than 50 bytes, or when it parses with `t=0`, `p=0` or an empty key field, which `argon2.IDKey` refuses. When it does not panic, its verdict is the corrected Verify's. |
| Argon2.ShortHashPanics | apps/auth-service/internal/infrastructure/crypto/argon2.go:37 | An empty stored hash makes the source panic, where the intended answer is "no match". |
| Argon2.Utf8LengthAtLeast | apps/auth-service/internal/infrastructure/crypto/argon2.go:37 | A string takes at least as many bytes as it has characters. |
| Argon2.HashIsLongEnough | apps/auth-service/internal/infrastructure/crypto/argon2.go:37 | Strings from `Hash` are at least 50 bytes long. Read with the base64 decoder, and given a derivation that yields the 32 bytes asked for, they carry `t=3,p=4` and a 32-byte key, so on them the source and the corrected Verify agree. |
| LoginUseCase.ValidateEmail | apps/web-admin/src/core/application/usecases/LoginUseCase.ts:73-76 | The address check; `LoginUseCase.ValidateEmailIsPattern` shows it accepts exactly the language of the regex. |
| LoginUseCase.ValidateEmailIsPattern | apps/web-admin/src/core/application/usecases/LoginUseCase.ts:73-76 | The check accepts an address exactly when it matches `^[^\s@]+@[^\s@]+\.[^\s@]+$`, with `\s` meaning the JavaScript whitespace set. |
| LoginUseCase.ValidImpliesPattern | apps/web-admin/src/core/application/usecases/LoginUseCase.ts:74 | Every accepted address matches the pattern. |
| LoginUseCase.PatternImpliesValid | apps/web-admin/src/core/application/usecases/LoginUseCase.ts:74 | Every address matching the pattern is accepted. |
| LoginUseCase.NoAtRefused | apps/web-admin/src/core/application/usecases/LoginUseCase.ts:73-76 | An address without `@` is refused. |
| LoginUseCase.ValidExample | apps/web-admin/src/core/application/usecases/LoginUseCase.ts:74 | `a@b.com` is accepted. |
| LoginUseCase.InvalidExample | apps/web-admin/src/core/application/usecases/LoginUseCase.ts:74 | `bad-email` is refused. |
| LoginUseCase.MapError | apps/web-admin/src/core/application/usecases/LoginUseCase.ts:92-104 | The error kind is kept and the message is never empty. |
| LoginUseCase.MapErrorFallbacks | apps/web-admin/src/core/application/usecases/LoginUseCase.ts:100-103 | The message is the table's for a listed kind, else the thrown message if non-empty, else `Error desconocido.` |
| LoginUseCase.TableKinds | apps/web-admin/src/core/application/usecases/LoginUseCase.ts:93-98 | Exactly four kinds have a fixed message: invalid_credentials, user_inactive, too_many_requests, network_error. |
| LoginUseCase.StoreSession | apps/web-admin/src/core/application/usecases/LoginUseCase.ts:83-86 | Storing writes the token and the serialised user under `token` and `user`, and leaves every other entry. |
| LoginUseCase.IsAuthenticated | apps/web-admin/src/core/application/usecases/LoginUseCase.ts:109-111 | A truthy stored token; `LoginUseCase.StoreThenRead` and `LoginUseCase.ClearSessionProperties` state when it holds. |
| LoginUseCase.StoreThenRead | apps/web-admin/src/core/application/usecases/LoginUseCase.ts:83-125 | After storing, the client is authenticated exactly when the token is non-empty, and the stored user reads back. |
| LoginUseCase.GetCurrentUser | apps/web-admin/src/core/application/usecases/LoginUseCase.ts:116-125 | A missing, empty or unparsable user entry reads as null. |
| LoginUseCase.ClearSession | apps/web-admin/src/core/application/usecases/LoginUseCase.ts:130-133 | Clearing removes `token` and `user` and nothing else. |
| LoginUseCase.ClearSessionProperties | apps/web-admin/src/core/application/usecases/LoginUseCase.ts:109-133 | Clearing is idempotent and leaves the client unauthenticated with no current user. |
| LoginUseCase.Execute | apps/web-admin/src/core/application/usecases/LoginUseCase.ts:36-67 | A malformed address is refused with validation_error, without calling the gateway and without touching storage. Otherwise the gateway is called once: a resolved call logs in with the gateway's user and stores the session, and a rejected call gives the mapped error and leaves storage as it was. |
| LoginUseCase.ExecuteSuccessAuthenticates | apps/web-admin/src/core/application/usecases/LoginUseCase.ts:48-59 | A successful attempt leaves the client authenticated, with the returned user readable from storage. |
| LoginUseCase.ExecuteFailureKeepsStore | apps/web-admin/src/core/application/usecases/LoginUseCase.ts:60-66 | A failed attempt reports the mapped error and keeps any existing session. |
| AuthApiAdapter.BaseUrl | apps/web-admin/src/core/infrastructure/adapters/AuthApiAdapter.ts:15-34 | Base address precedence: constructor argument, then a non-empty `VITE_API_URL`, then the page origin. `AuthApiAdapter.ArgumentOverridesEnvironment` and `AuthApiAdapter.DefaultInstanceUsesOrigin` state its consequences for the requests sent. |
| AuthApiAdapter.ArgumentOverridesEnvironment | apps/web-admin/src/core/infrastructure/adapters/AuthApiAdapter.ts:15-34 | A non-empty constructor argument is the base address, whatever `VITE_API_URL` and the page origin are. |
| AuthApiAdapter.TrimSlashes | apps/web-admin/src/core/infrastructure/adapters/AuthApiAdapter.ts:16-17 | The base address loses at most two trailing characters, all slashes, before a path is joined to it: two when it ends in `//`, one when it ends in a single `/`. |
| AuthApiAdapter.NewAdapter | apps/web-admin/src/core/infrastructure/adapters/AuthApiAdapter.ts:15-22 | An instance keeps the base address chosen by `AuthApiAdapter.BaseUrl`; `AuthApiAdapter.ArgumentOverridesEnvironment` and `AuthApiAdapter.DefaultInstanceUsesOrigin` state which one. |
| AuthApiAdapter.FullUrl | apps/web-admin/src/core/infrastructure/adapters/AuthApiAdapter.ts:16-17 | The address a request goes to: the trimmed base, one slash, then the path less its leading slashes; the path alone under an empty base. `AuthApiAdapter.LogoutUrl` applies it to the logout path. |
| AuthApiAdapter.Login | apps/web-admin/src/core/infrastructure/adapters/AuthApiAdapter.ts:42-70 | The call resolves exactly on a delivered reply, with its body unchanged. |
| AuthApiAdapter.LoginErrorClasses | apps/web-admin/src/core/infrastructure/adapters/AuthApiAdapter.ts:49-69 | Response data is rethrown verbatim. An HTTP error without data becomes network_error, and anything else becomes unknown_error. |
| AuthApiAdapter.LoginRejectionOrigins | apps/web-admin/src/core/infrastructure/adapters/AuthApiAdapter.ts:49-69 | Every rejection carries the server's data or one of the two fixed errors. |
| AuthApiAdapter.Logout | apps/web-admin/src/core/infrastructure/adapters/AuthApiAdapter.ts:76-86 | Logout posts to `/api/auth/logout` with `Bearer ` followed by the token as its Authorization header, and resolves whatever the request does. |
| AuthApiAdapter.LogoutHeaderIdentifiesToken | apps/web-admin/src/core/infrastructure/adapters/AuthApiAdapter.ts:78-82 | Two logouts send the same Authorization header exactly when they carry the same token. |
| AuthApiAdapter.LogoutUrl | apps/web-admin/src/core/infrastructure/adapters/AuthApiAdapter.ts:78 | A logout goes to the base address, less at most two trailing slashes, followed by `/api/auth/logout`. A base without a trailing slash is kept whole, one ending in a single slash loses it, and one ending in `//` loses both. |
| AuthApiAdapter.DefaultInstanceUsesOrigin | apps/web-admin/src/core/infrastructure/adapters/AuthApiAdapter.ts:89-90 | The shared instance with no `VITE_API_URL` sends a logout to `/api/auth/logout` on the page's own origin. |
| AuthContext.IsAuthenticated | apps/web-admin/src/context/AuthContext.tsx:49 | `!!user`; `AuthContext.PhaseTransitions` and the route guards are stated in its terms. |
| AuthContext.Mount | apps/web-admin/src/context/AuthContext.tsx:26-36 | Start-up ends loading. It adopts the stored user exactly when that user is truthy and a token is stored, and otherwise leaves the user null. |
| AuthContext.Login | apps/web-admin/src/context/AuthContext.tsx:38-40 | Login makes the context authenticated with the given user and does not change loading. |
| AuthContext.Logout | apps/web-admin/src/context/AuthContext.tsx:42-45 | Logout clears the stored session and the in-memory user, leaving both unauthenticated. |
| AuthContext.PhaseTransitions | apps/web-admin/src/context/AuthContext.tsx:26-49 | The status starts unknown and start-up settles it. After start-up, login always leads to authenticated and logout to unauthenticated. |
| AuthContext.MountCanDisagree | apps/web-admin/src/context/AuthContext.tsx:30-36 | A stored token without a stored user leaves the client logged out while storage says authenticated. |
| AuthContext.LoginAndLogoutRestoreAgreement | apps/web-admin/src/context/AuthContext.tsx:38-45 | After a use-case login followed by a context login, or after a logout, the in-memory state and the stored token agree. |
| App.ProtectedRoute | apps/web-admin/src/App.tsx:21-37 | The page renders exactly when loading is over and the user is authenticated. Otherwise the guard shows the spinner or redirects to `/login`. |
| App.PublicRoute | apps/web-admin/src/App.tsx:43-59 | The page renders exactly when loading is over and no one is logged in. Otherwise the guard shows the spinner or redirects to `/dashboard`. |
| App.Route | apps/web-admin/src/App.tsx:64-94 | Any path other than `/login` and `/dashboard` redirects to `/dashboard`. Only `/login` renders the login page. |
| App.Follow | apps/web-admin/src/App.tsx:21-91 | Following redirects: where a visit ends, the view is what the route table gives for that path. `App.VisitsSettle` says where it ends. |
| App.VisitsSettle | apps/web-admin/src/App.tsx:64-94 | Once loading is over, every path settles within two redirects: on the dashboard for a logged-in user, on the login page otherwise. |
| App.NoRedirectCycle | apps/web-admin/src/App.tsx:64-94 | Following more than two redirects never changes where a visit ends. |
| App.LoadingShowsSpinner | apps/web-admin/src/App.tsx:21-91 | While loading, every path ends on the spinner: at `/login` for that path and at `/dashboard` for all others. |
| EndToEnd.ToClientUser | apps/auth-service/internal/core/domain/user.go:6-13 | The client receives every user field except the password hash. |
| EndToEnd.Transmit | apps/web-admin/src/core/infrastructure/adapters/AuthApiAdapter.ts:44-56 | A 2xx login reply is delivered with its token and user. On any other status the body arrives as response data: an error body with its code and message, a message body with its message only, a login body with neither. |
| EndToEnd.ErrorsReachThePage | apps/web-admin/src/core/application/usecases/LoginUseCase.ts:100-103 | Every backend error reaches the page with its code intact. |
| EndToEnd.TooManyRequestsReworded | apps/web-admin/src/core/application/usecases/LoginUseCase.ts:96 | A blocked client sees the client's own wording, which differs from the server's message. |
| EndToEnd.InternalErrorKeepsServerMessage | apps/web-admin/src/core/application/usecases/LoginUseCase.ts:102 | An internal error is shown with the server's message, since the client's table has no entry for it. |
| EndToEnd.InvalidRequestReachesThePage | apps/auth-service/internal/adapters/handlers/auth_handler.go:26-31 | A refused request reaches the page as invalid_request with the server's message. |
| EndToEnd.LoginAcrossTheWire | apps/web-admin/src/core/application/usecases/LoginUseCase.ts:36-67 | Against this backend, a malformed address never reaches the server. Otherwise the client logs in exactly when the request binds and the service accepts it. It then holds the service's user without its hash and the issued token. |

## Left out

- Logging, including the log lines of `Verify`. Only the `[:50]` slice is modelled, because it can panic.
- Key expiry: the 15-minute EXPIRE on counters and the 24-hour TTL on sessions. Time is not modelled, so a block never lifts by itself.
- Concurrency and request contexts. Concurrent INCRs from one IP are not modelled; each call runs atomically.
- The Argon2id key derivation, JWT generation, the PostgreSQL lookup, gin's e-mail validator and JSON serialisation. These are parameters, so no property relies on their internals.
- The key/salt comparison is in constant time in the source. The model keeps only its result, sequence equality.
- AuthHandler.Login: `c.ClientIP()` header handling is left out. The client IP is a parameter.
- Argon2.ParseParams: the leading whitespace that `fmt.Sscanf` skips before a number is not accepted by the model. The model reads plain digit runs only.
- Base64.Decode: the Go decoder skips `\r` and `\n` anywhere in the input; the model treats them as characters outside the alphabet.
- Argon2.Verify: the decoder is a parameter so that its properties hold for any decoder; `Argon2.HashThenVerifyBase64` instantiates it with `Base64.Decode`.
- Argon2.Verify: the key derivation is a total parameter, so the corrected `Verify` returns a verdict for a stored `t=0`, `p=0` or empty key, where `argon2.IDKey` panics; only `Argon2.VerifyAsWritten` records that panic.
- LoginUseCase.MapError: the table lookup reads a property of an object literal, so a kind naming an inherited `Object.prototype` member (`constructor`, `toString`, `__proto__`, …) yields that member instead of a table message or the thrown message. The model's table has only its four own keys. No server code in this system is such a name.
- LoginUseCase.MapErrorFallbacks: states the fallbacks for the four own keys only, for the reason given for `LoginUseCase.MapError`.
- LoginUseCase.TableKinds: "exactly four kinds" counts the table's own keys; inherited `Object.prototype` names are not modelled, as for `LoginUseCase.MapError`.
- AuthApiAdapter.Login: the request it sends (`/api/auth/login`, a JSON body) is not modelled. `EndToEnd.Gateway` hands the credentials straight to the handler.
- Argon2.VerifyAsWritten: resource exhaustion is not modelled. A stored `m` makes `argon2.IDKey` allocate that many KiB up front, so a huge `m` ends the process with an out-of-memory error, and a huge `t` only makes the call slow. The model returns the verdict in both cases.
- EndToEnd.Transmit: a 2xx reply with a message body is taken as an unknown failure; the login handler never sends one.
- AuthApiAdapter.TrimSlashes: axios's joining of the base address and the path is modelled from its documented behaviour; the axios library is not part of this model.
- Cache.GetAttempts: Redis 64-bit integer overflow on INCR is not modelled. Counters are unbounded.
- Cache.GetAttempts: a string value holding decimal text would be read as an integer by Redis. The model reads every `Str` value as a non-integer.
- LoginUseCase.StoreSession: failures of `localStorage.setItem` (quota, private mode) are not modelled.
- AuthApiAdapter.Login: a 2xx reply whose body is not a login response is not modelled. The body is taken as delivered.
- App.Route: react-router's case-insensitive matching and trailing-slash handling are not modelled. Paths are compared exactly.
- Rendering, styling, toasts, the spinner's markup and the pages of `Login.tsx` and `Dashboard.tsx`. These only display what the modelled functions produce. `Login.tsx` as written logs the form and shows an alert; it calls neither the gateway nor the use case.
- The `Hash` salt: the source documents a fixed salt as a placeholder for a random one. The model keeps the fixed salt as written.

## Findings

| source | as written | input that shows it | evidently intended | confidence | as-written member | corrected member |
|---|---|---|---|---|---|---|
| apps/auth-service/internal/infrastructure/crypto/argon2.go:37 | The debug log line slices `encodedHash[:50]` before any check, which panics on a stored hash shorter than 50 bytes. | stored hash `""` (or any malformed hash under 50 bytes) | return false (no match) for a malformed hash | not executed | Argon2.VerifyAsWritten | Argon2.Verify |
