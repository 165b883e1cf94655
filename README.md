# coffee-tracker-backend: authentication and session core in Dafny

This project models the authentication and session layer of the
coffee-tracker backend, a Go HTTP service. It also models the validators,
statement builders and use cases around that layer. The model covers:

- **One-time passcodes (OTP).** Six-digit codes are issued (`GenerateOtpUseCase`,
  `AuthService.GenerateOTP`, `utils.GenerateOTP`), stored in `user_otps` and
  checked once (`ValidateOtpUseCase`, `AuthService.ValidateOTP`). A configured
  magic code bypasses the check.
- **JWTs.** `JWTService` issues access and refresh tokens, validates them and
  reads the user id back. `GenerateJWT` issues Supabase-style tokens.
- **The refresh-token table.** `AuthRepositoryImpl` keeps one row per user.
  `AuthService` generates and rotates opaque hex tokens.
- **The HTTP handlers of `AuthHandler`.** These are `RequestOTP`, `VerifyOTP`,
  `RefreshToken` with its six checks and its rotation, `Logout`,
  `CreateAuthToken` and `GetProfile`.
- **The middlewares.** `AuthMiddleware` reads a bearer token. The Supabase stub
  ignores the token. `UserMiddleware` caches users and checks their status.
- **The repositories' SQL.** These are `UserRepositoryImpl`'s statements,
  including the `UpdateProfile` builder with its `$n` placeholders,
  `UserSettingsRepositoryImpl.Patch`/`Reset`, and `GenericKVRepositoryImpl`'s
  cache.
- **Configuration.** `config.Load` reads defaults, parses the TTLs and
  validates the result.
- **Use cases.** `UpdateUserProfile`, `UpdateUserSetting`, `GetCoffeeEntries`
  (date window) and `UploadUserProfileImage` (object path).

Conventions used throughout:

- **Time.** Each request sees one clock reading `now`, in nanoseconds since the
  Unix epoch. `time.Now()` and the database's `NOW()` are that same instant.
  JWT numeric dates are whole seconds: `UnixSeconds(t)` is `t` divided by 10^9,
  rounded down.
- **Database.** A repository is a class whose fields hold the rows it manages:
  the OTP list and the refresh table keyed by user. Where the rows are not
  modelled, it holds instead the log of statements it sent.
- **Faults.** Every database call takes a fault flag. When the flag is set the
  call returns an error and changes nothing.
- **Randomness.** Random bytes, draws and UUIDs (`jti`) come in as parameters.
- **Signing.** The HMAC is a function parameter `Mac`. Verifying a signature
  means recomputing it with that function and comparing.
- **Token encoding.** Tokens are real strings produced by an injective
  three-segment codec (`JwtCodec`). The codec stands in for base64url-encoded
  JSON (section 3.1 of RFC 7515). Its only property the model relies on is
  that parsing a serialisation returns the token and its signing input.
- **HTTP.** A handler's response is a datatype holding the status and the
  text. Request contexts are maps from context keys to values.
- **Go map order.** `range` over a Go map visits keys in an unspecified order.
  The model passes that order in as a parameter, and a ghost predicate
  `IsWalkOf` says it lists each key once.

## Code and design

The model follows the code. Where the code does not do what the system is
evidently meant to do, the model shows what the code does:

- **Key of the refresh table.** Refresh sessions are meant to be kept per
  user and device. The SQL upsert keys them by user only, so one login
  replaces the previous one.
- **Rotation.** Rotating a refresh token is meant to be an atomic
  compare-and-swap. `RefreshToken` reads the stored token, compares it, then
  upserts.
- **Magic code.** The magic code is meant for development only. The code does
  not guard it. Its default is the empty string, and neither `VerifyOTP` nor
  the use case rejects an empty code. So with `MAGIC_OTP` unset, the code `""`
  passes for any user. `Config.MagicOtpDefault` and the `code == magicOtp`
  clauses of `OtpUseCases.ValidateOtpUseCase.Execute` state this.
- **SMS dispatch.** There is none. `RequestOTP` logs the code and answers with a
  fixed message.
- **Unique token id.** The unique token id claim is named `token`, not `jti`.
- **Error texts.** Token validation fails with plain Go errors. `AuthMiddleware`
  writes their text (`Jwt.TokenError.Message`) as the 401 body. `RefreshToken`
  maps each failure to its own fixed text instead.

## Model

| member | source | states |
|---|---|---|
| AuthRepository.AuthRepository.SaveOtp | internal/infrastructure/repositories/auth_repository_impl.go:23-30 | appends an unused row (user, code, expiry); on a fault nothing is stored; refresh table untouched |
| AuthRepository.AuthRepository.constructor | internal/infrastructure/repositories/auth_repository_impl.go:19-21 | no OTP rows and an empty refresh table |
| AuthRepository.AuthRepository.GetValidOtp | internal/infrastructure/repositories/auth_repository_impl.go:33-42 | valid exactly when some row for this user and code is unused and expires after `now`; a fault reports not valid with an error |
| AuthRepository.AuthRepository.InvalidateOtp | internal/infrastructure/repositories/auth_repository_impl.go:44-48 | marks used every row with this user and code (not only unexpired ones) and changes nothing else |
| AuthRepository.AuthRepository.SaveRefreshToken | internal/infrastructure/repositories/auth_repository_impl.go:50-62 | the upsert: the user's row becomes (token, expiry), every other user's row is kept |
| AuthRepository.AuthRepository.GetRefreshToken | internal/infrastructure/repositories/auth_repository_impl.go:64-73 | the user's row when it expires after `now`, else "no rows" |
| AuthRepository.AuthRepository.DeleteRefreshToken | internal/infrastructure/repositories/auth_repository_impl.go:75-79 | the user's row is removed, whether or not one existed |
| AuthRepository.AuthRepository.GetUserIdByRefreshToken | internal/infrastructure/repositories/auth_repository_impl.go:81-97 | succeeds exactly when some user holds this live token, and then names such a user; otherwise `ErrNotFound` |
| AuthRepository.AuthRepository.InvalidateAllUserTokens | internal/infrastructure/repositories/auth_repository_impl.go:99-103 | the user's row is removed and the OTPs are untouched |
| AuthRepository.LiveRefreshToken | internal/infrastructure/repositories/auth_repository_impl.go:67 | succeeds exactly when the user has a row expiring after `now`, and returns that row |
| AuthRepository.MarkUsed | internal/infrastructure/repositories/auth_repository_impl.go:45 | same length; a row is set used exactly when its user and code match |
| AuthRepository.SavedOtpIsValid | internal/infrastructure/repositories/auth_repository_impl.go:23-42 | a code just saved with a future expiry is found valid |
| AuthRepository.SaveOtpKeepsOthers | internal/infrastructure/repositories/auth_repository_impl.go:23-42 | saving a row for another user or code does not change whether a code is valid |
| AuthRepository.MarkUsedInvalidates | internal/infrastructure/repositories/auth_repository_impl.go:33-48 | after invalidation the code is valid for that user at no instant |
| AuthRepository.MarkUsedKeepsOthers | internal/infrastructure/repositories/auth_repository_impl.go:33-48 | invalidation leaves every other (user, code) pair's validity alone |
| AuthRepository.SaveThenGet | internal/infrastructure/repositories/auth_repository_impl.go:50-73 | a saved token is read back until its expiry and not from then on |
| AuthRepository.SaveReplaces | internal/infrastructure/repositories/auth_repository_impl.go:50-62 | after an upsert the previous token no longer holds for that user; other users keep their rows |
| AuthRepository.DeleteIdempotent | internal/infrastructure/repositories/auth_repository_impl.go:75-79 | deleting twice equals deleting once, and afterwards no token holds for the user |
| OtpCodes.RandInt | internal/usecases/generate_otp.go:36-40 | `min + b % (max-min+1)`: within [min, min+255], at most `max` when max >= min, and exactly `min + b` when the range is 256 or wider |
| OtpCodes.IssuedCode | internal/usecases/generate_otp.go:23 | the `%06d` rendering of `randInt(100000, 999999)`: six decimal digits whose value is 100000 plus the byte read |
| OtpCodes.IssuedCodeRange | internal/usecases/generate_otp.go:23 | an issued code lies in 100000..100255 (only 256 distinct codes); a failed read yields "100000" |
| OtpCodes.RandIntEasy | internal/infrastructure/utils/otp_utils.go:38-45 | fails exactly when the random read fails, else the byte-modulo value |
| OtpCodes.RandIntCrypto | internal/infrastructure/utils/otp_utils.go:48-55 | fails exactly when the draw fails, else `min + draw`, inside [min, max] |
| OtpCodes.GenerateOtp | internal/infrastructure/utils/otp_utils.go:14-35 | unknown strength exactly when neither "easy" nor "strong"; each strength fails exactly when its random source does; a code is six decimal digits whose value is 100000 plus the draw |
| OtpCodes.OtpError.Message | internal/infrastructure/utils/otp_utils.go:33 | an unknown strength, and only it, gives the text "unknown OTP strength: must be 'easy' or 'strong'"; a failed random read gives no text of its own here, since it carries `crypto/rand`'s error |
| OtpCodes.GenerateOtpRanges | internal/infrastructure/utils/otp_utils.go:14-35 | every generated code's value lies in [100000, 999999], and "easy" codes in [100000, 100255] |
| OtpCodes.StrongCodesCoverRange | internal/infrastructure/utils/otp_utils.go:24-30 | every six-digit value from 100000 to 999999 is some "strong" code |
| OtpUseCases.IssueOtp | internal/usecases/generate_otp.go:22-33 | on success the code is the issued code and one unused row valid for five minutes is appended; on a fault "" and nothing stored |
| OtpUseCases.GenerateOtpUseCase.Execute | internal/usecases/generate_otp.go:22-33 | as `IssueOtp`, on the use case's repository |
| OtpUseCases.GenerateOtpUseCase.constructor | internal/usecases/generate_otp.go:18-20 | keeps the given repository |
| OtpUseCases.CheckOtp | internal/usecases/validate_otp.go:21-36 | the magic code passes without touching the store; a lookup fault refuses with an error; otherwise passes exactly on a valid stored code, which is then marked used (unless that write fails, whose error is dropped) |
| OtpUseCases.ValidateOtpUseCase.Execute | internal/usecases/validate_otp.go:21-36 | as `CheckOtp`, with the magic code from the configuration |
| OtpUseCases.ValidateOtpUseCase.constructor | internal/usecases/validate_otp.go:17-19 | keeps the given repository and configuration |
| OtpUseCases.SingleUse | internal/usecases/validate_otp.go:21-36 | a non-magic code that passes once can never pass a second time, at any later instant |
| OtpUseCases.IssuedThenChecked | internal/usecases/validate_otp.go:21-36 | a code issued at `now` passes when checked before `now` plus five minutes |
| AuthService.AuthService.constructor | internal/services/auth_service.go:23-25 | keeps the repository and configuration |
| AuthService.AuthService.GenerateOtp | internal/services/auth_service.go:27-38 | same behaviour as the OTP use case: the issued code stored for five minutes, or "" and an error on a fault |
| AuthService.AuthService.ValidateOtp | internal/services/auth_service.go:40-56 | magic-code bypass, then a single-use check of the stored code, as the use case |
| AuthService.GenerateSecureToken | internal/services/auth_service.go:100-106 | fails exactly when the random read fails; else 2·length lower-case hex digits that decode to the bytes read |
| AuthService.SecureTokenInjective | internal/services/auth_service.go:100-106 | different random bytes give different tokens |
| AuthService.AuthService.GenerateRefreshToken | internal/services/auth_service.go:59-74 | on success a 64-digit hex token, stored for the user for 30 days; on a random or store failure "" and the table unchanged |
| AuthService.AuthService.ValidateRefreshToken | internal/services/auth_service.go:77-86 | succeeds exactly when some user holds the live token and names such a user; a miss becomes "invalid or expired refresh token" |
| AuthService.ServiceError.Message | internal/services/auth_service.go:81 | a refused refresh token, and only it, gives the text "invalid or expired refresh token"; store and random failures give no text of their own here, since they carry their library's error |
| AuthService.AuthService.RotateRefreshToken | internal/services/auth_service.go:88-98 | a fresh 32-byte hex token replaces the user's row for 30 days; failures leave the table unchanged |
| AuthService.AuthService.SaveRefreshToken | internal/services/auth_service.go:115-117 | delegates: the user's row becomes (token, expiry) |
| AuthService.AuthService.GetRefreshToken | internal/services/auth_service.go:118-120 | delegates: the user's live row or "no rows" |
| AuthService.AuthService.DeleteRefreshToken | internal/services/auth_service.go:121-123 | delegates: the user's row is removed |
| AuthService.RotateThenValidate | internal/services/auth_service.go:77-98 | a rotated token is accepted by `ValidateRefreshToken` for its whole 30-day life |
| Jwt.UnixSeconds | internal/infrastructure/auth/jwt_service.go:32-33 | `Time.Unix()`: the whole second containing the instant, rounding towards minus infinity |
| Jwt.UnixSecondsShift | internal/infrastructure/auth/jwt_service.go:32-33 | adding whole seconds to an instant adds them to its Unix second |
| Jwt.NewJwtService | internal/infrastructure/auth/jwt_service.go:19-25 | the secret is kept, and the getters `AccessExpiry` and `RefreshExpiry` (lines 106-112) return the TTLs given |
| Jwt.AccessMembers | internal/infrastructure/auth/jwt_service.go:28-36 | the members written decode to exactly the claims map of `GenerateAccessToken` |
| Jwt.RefreshMembers | internal/infrastructure/auth/jwt_service.go:43-49 | the members written decode to exactly the claims map of `GenerateRefreshToken` |
| Jwt.AccessClaimsShape | internal/infrastructure/auth/jwt_service.go:28-36 | exactly the keys sub, aud, role, exp, iat, type, token; `sub` is the user's UUID string, `type` "access", audience and role "authenticated"; exp − iat is the TTL in seconds when the TTL is whole seconds, and within one second of it otherwise |
| Jwt.RefreshClaimsShape | internal/infrastructure/auth/jwt_service.go:43-49 | exactly sub, exp, iat, type, token, with no audience or role; `type` is "refresh"; exp − iat is the refresh TTL in seconds when it is whole seconds |
| Jwt.SignHS256 | internal/infrastructure/auth/jwt_service.go:38-39 | the token parses back to an HS256 header, these members, and the HMAC of exactly the signing input |
| Jwt.ClaimIssues | internal/infrastructure/auth/jwt_service.go:56 | the library's claim check passes exactly when exp and nbf are numeric or absent, `now` is before exp, and `now` is at or after nbf |
| Jwt.NumericDate | internal/infrastructure/auth/jwt_service.go:56 | a present non-number is a type error; an absent key or 0 counts as unset; otherwise the number |
| Jwt.AcceptedMeansSigned | internal/infrastructure/auth/jwt_service.go:55-84 | a token accepted by `ValidateTokenString` uses an HMAC algorithm and carries the HMAC, under the service's secret, of its own signing input; the claims returned are its members |
| Jwt.NonHmacRejected | internal/infrastructure/auth/jwt_service.go:56-65 | a token naming a non-HMAC algorithm is refused whatever its signature and claims: by the key function ("unexpected signing method") when golang-jwt registers the algorithm, as "signing method (alg) is unavailable" before that when it does not |
| Jwt.ValidateTokenString | internal/infrastructure/auth/jwt_service.go:55-84 | no contract of its own: `AcceptedMeansSigned`, `NonHmacRejected`, `ValidateSigned`, `ExtraExpiryCheck` and `AcceptedClaims` state what it accepts, in which order it refuses, and with which error |
| Jwt.AcceptedClaims | internal/infrastructure/auth/jwt_service.go:55-84 | what validation accepts is the claims the string itself carries, so two successful validations at different instants agree |
| Jwt.TokenError.Message | internal/infrastructure/auth/jwt_service.go:55-98 | `err.Error()` of each refusal; a text starts with "invalid token: " exactly when the error came out of `jwt.Parse`, so the library's refusals are told apart from the service's own "token expired" and "user ID not found in token" and from `uuid.Parse`'s texts |
| Jwt.IssueMessages | internal/infrastructure/auth/jwt_service.go:56-65 | one text per claim issue, in the order the validator found them (`token is expired`, `token is not valid yet`, `invalid type for claim: <key> is invalid`) |
| Jwt.IsRefreshToken | internal/infrastructure/auth/jwt_service.go:101-104 | no contract of its own: `IsRefreshTokenKinds` states that refresh tokens are recognised and access tokens are not |
| Jwt.ExtraExpiryCheck | internal/infrastructure/auth/jwt_service.go:76-81 | after the library accepts the claims, the extra `exp` check fires only for `exp` 0 (which the library treats as unset) at an instant after the epoch |
| Jwt.ValidateSigned | internal/infrastructure/auth/jwt_service.go:55-84 | a correctly signed token with a non-zero `exp` and no `nbf` is accepted, with its members as claims, exactly before `exp`; from then on it is refused as expired |
| Jwt.ExtractUserIdFromToken | internal/infrastructure/auth/jwt_service.go:87-99 | a validation error is passed on unchanged; otherwise the result is `UserIdOf` of the validated claims, so success means an accepted token whose `sub` string parses as the returned UUID |
| Jwt.UserIdOf | internal/infrastructure/auth/jwt_service.go:93-98 | a `sub` that is absent, not a string or empty gives "user ID not found in token"; an unparsable one gives `uuid.Parse`'s error for it; a string in any spelling `uuid.Parse` accepts (canonical, upper-case, braced, `urn:uuid:`, 32 hex digits) gives that UUID |
| Jwt.ExtractFromValid | internal/infrastructure/auth/jwt_service.go:87-99 | accepted claims with `sub` the user's canonical string give that user |
| Jwt.AccessTokenRoundTrip | internal/infrastructure/auth/jwt_service.go:27-99 | a fresh access token (expiry second not 0) validates to its claims and yields its user until its expiry, then is refused as expired |
| Jwt.RefreshTokenRoundTrip | internal/infrastructure/auth/jwt_service.go:42-99 | the same for refresh tokens |
| Jwt.IsRefreshTokenKinds | internal/infrastructure/auth/jwt_service.go:101-104 | refresh claims are refresh tokens; access claims are not |
| Jwt.DistinctJtiDistinctTokens | internal/infrastructure/auth/jwt_service.go:35 | two different token ids give two different tokens, for both kinds |
| Jwt.AccessIsNotRefresh | internal/infrastructure/auth/jwt_service.go:27-53 | an access token never equals a refresh token |
| Jwt.GenerateAccessToken | internal/infrastructure/auth/jwt_service.go:27-40 | no contract of its own: `AccessClaimsShape`, `AccessTokenRoundTrip` and `DistinctJtiDistinctTokens` state its claims, its round trip and the effect of the token id |
| Jwt.GenerateRefreshToken | internal/infrastructure/auth/jwt_service.go:42-53 | no contract of its own: `RefreshClaimsShape`, `RefreshTokenRoundTrip` and `IsRefreshTokenKinds` state its claims, its round trip and its kind |
| Jwt.IssuedWindow | internal/infrastructure/auth/jwt_service.go:32-33 | exp − iat is the TTL in whole seconds, and at most one more than it in any case |
| JwtGenerate.GenerateJwtMembers | internal/infrastructure/auth/jwt.go:12-18 | the members written decode to exactly the claims literal |
| JwtGenerate.GenerateJwtClaimsShape | internal/infrastructure/auth/jwt.go:12-18 | keys sub, aud, role, exp, iat; exp is 3600 s after iat; no `type`, so never a refresh token |
| JwtGenerate.GenerateJwtSigned | internal/infrastructure/auth/jwt.go:20-21 | an HS256 token over these claims under the given secret |
| JwtGenerate.GenerateJwtAccepted | internal/infrastructure/auth/jwt.go:11-22 | a service with the same secret accepts it for its hour and reads the user back |
| JwtGenerate.GenerateJwtExpires | internal/infrastructure/auth/jwt.go:16 | from the expiry second on it is refused as expired |
| JwtGenerate.GenerateJwt | internal/infrastructure/auth/jwt.go:11-22 | no contract of its own: `GenerateJwtClaimsShape`, `GenerateJwtSigned`, `GenerateJwtAccepted` and `GenerateJwtExpires` state its claims, signature and lifetime |
| JwtCodec.ParseSerialize | internal/infrastructure/auth/jwt_service.go:38-39 | parsing a serialised token gives back the token and exactly its signing input |
| JwtCodec.SerializeInjective | internal/infrastructure/auth/jwt_service.go:38-39 | distinct tokens serialise to distinct strings |
| JwtCodec.ClaimsOfKeys | internal/infrastructure/auth/jwt_service.go:71 | the claims map has exactly the members' keys, and a repeated key keeps its last value |
| Bearer.BearerError.Message | internal/infrastructure/utils/jwt_utils.go:13-19 | no contract of its own: `AuthMiddleware.AuthMiddleware` states the two texts the 401 carries |
| Bearer.ExtractBearerToken | internal/infrastructure/utils/jwt_utils.go:11-22 | "missing" exactly for an empty header; "invalid format" exactly for a non-empty header without the `Bearer ` prefix; otherwise the rest of the header |
| Bearer.ExtractPrefixed | internal/infrastructure/utils/jwt_utils.go:17-21 | `Bearer ` followed by t yields t |
| Bearer.ExtractBareScheme | internal/infrastructure/utils/jwt_utils.go:17-21 | the header `Bearer ` alone yields the empty token rather than an error |
| Bearer.ExtractWrongScheme | internal/infrastructure/utils/jwt_utils.go:17-19 | the prefix check is case-sensitive and needs the space |
| AuthMiddleware.AuthMiddleware | internal/infrastructure/http/middleware/auth_middleware.go:13-32 | no header gives 401 "missing Authorization header"; a header without the "Bearer " scheme gives 401 "invalid authorization header format"; a token after the scheme that `ExtractUserIDFromToken` refuses gives 401 with that error's `Message()`; an accepted token runs the next handler with its user under `UserIDKey` |
| AuthMiddleware.PassedMeansAuthenticated | internal/infrastructure/http/middleware/auth_middleware.go:13-32 | a request passes only with a bearer token the JWT service accepts, and the context then names that token's user |
| AuthMiddleware.AccessTokenPasses | internal/infrastructure/http/middleware/auth_middleware.go:13-32 | a live access token passes |
| AuthMiddleware.RefreshTokenPasses | internal/infrastructure/http/middleware/auth_middleware.go:13-32 | a live refresh token passes as well, since the middleware never looks at `type` |
| AuthMiddleware.ExpiredAccessTokenText | internal/infrastructure/http/middleware/auth_middleware.go:22-25 | an access token past its `exp` is answered 401 "invalid token: token has invalid claims: token is expired" |
| AuthMiddleware.ForeignAlgorithmText | internal/infrastructure/http/middleware/auth_middleware.go:22-25 | a token naming a registered non-HMAC algorithm (RS256, "none", …) is answered 401 with the key function's "unexpected signing method: <alg>" behind the library's and the service's prefixes |
| SupabaseAuth.SupabaseAuthMiddleware | internal/infrastructure/http/middleware/supabase_auth.go:12-41 | no header, or any `Bearer ` header, continues with the fixed stub UUID under the plain string key "userID"; another header gives 401 |
| SupabaseAuth.OnlyShapeMatters | internal/infrastructure/http/middleware/supabase_auth.go:26-37 | the key and the token are ignored: only the header's shape changes the outcome |
| SupabaseAuth.StubIdInvisible | internal/infrastructure/http/middleware/supabase_auth.go:20-37 | the stub id is stored under a plain string key, so `UserIDFromContext` does not see it |
| Http.UserIdFromContext | internal/contextkeys/context_helpers.go:18-21 | some id exactly when the `UserIDKey` entry holds a UUID, and then that id |
| Http.WithValueKeepsOthers | internal/contextkeys/context_helpers.go:18-21 | adding a context value leaves every other key as it was |
| Http.PlainKeyInvisible | internal/contextkeys/context_keys.go:5-9 | a value under the plain string "userID" is not under the typed key `UserIDKey` |
| UserMiddleware.Admit | internal/infrastructure/http/middleware/user_middleware.go:53-61 | an inactive user gets 403; an active one continues with the user under `CurrentUserKey` |
| UserMiddleware.UserMiddleware.Serve | internal/infrastructure/http/middleware/user_middleware.go:25-62 | outcome and cache follow `Resolve`, and the database is fetched once exactly when `Resolve` misses the cache |
| UserMiddleware.UserMiddleware.constructor | internal/infrastructure/http/middleware/user_middleware.go:20-22 | an empty cache and no fetches; the TTL is not used |
| UserMiddleware.NoIdRejected | internal/infrastructure/http/middleware/user_middleware.go:26-27 | without a user id the request is refused and the cache unchanged |
| UserMiddleware.CacheHit | internal/infrastructure/http/middleware/user_middleware.go:32-37 | a cached user is used without a fetch |
| UserMiddleware.CacheMiss | internal/infrastructure/http/middleware/user_middleware.go:38-51 | a miss fetches; "not found" gives 401 and caches nothing; a found user is cached and checked |
| UserMiddleware.CacheOnlyGrows | internal/infrastructure/http/middleware/user_middleware.go:46-48 | entries are never changed or evicted, and only the requesting user's entry can be added |
| UserMiddleware.AdmittedIsActive | internal/infrastructure/http/middleware/user_middleware.go:53-61 | an admitted request carries an active user, and that user is the one cached for its id |
| UserMiddleware.SecondRequestIsHit | internal/infrastructure/http/middleware/user_middleware.go:32-51 | once a user is cached, a repeat request does no fetch and gets the same outcome, even if the account changed meanwhile |
| UserMiddleware.Resolve | internal/infrastructure/http/middleware/user_middleware.go:26-61 | no contract of its own: `NoIdRejected`, `CacheHit`, `CacheMiss`, `CacheOnlyGrows`, `AdmittedIsActive` and `SecondRequestIsHit` state its outcomes and its cache |
| Users.IsActiveOnlyActive | internal/entities/user.go:35-38 | active exactly for status 2; the six other statuses are inactive |
| Users.IsActiveStatusOnly | internal/entities/user.go:36-38 | only the status decides activity |
| Users.IsActive | internal/entities/user.go:36-38 | no contract of its own: `IsActiveOnlyActive` and `IsActiveStatusOnly` state that status 2 alone is active |
| AuthHandler.ByField | internal/infrastructure/repositories/user_repository_impl.go:47-79 | `getUserByField` behind `GetByID`, `GetByEmail` and `GetByMobile`: a user found is in the table and holds the value in that column; "not found" exactly when no user does |
| AuthHandler.AuthHandler.constructor | internal/infrastructure/http/handlers/auth_handler.go:26-48 | keeps its collaborators; both OTP use cases share the handler's repository |
| AuthHandler.AuthHandler.RequestOtp | internal/infrastructure/http/handlers/auth_handler.go:51-82 | 400 on a missing body or mobile; 404 on an unknown mobile or a failed user lookup; 500 when the code is not stored; otherwise the issued code is stored for the user for five minutes and the reply is only "OTP sent successfully"; refresh tokens untouched |
| AuthHandler.AuthHandler.VerifyOtp | internal/infrastructure/http/handlers/auth_handler.go:84-137 | 400 on a bad body; 401 on an unknown mobile or a code that does not pass (magic code, else a valid stored code, which is consumed); 500 when the refresh token is not saved; otherwise access and refresh tokens for the user, with the refresh token stored for the refresh TTL |
| AuthHandler.AuthHandler.CheckCode | internal/infrastructure/http/handlers/auth_handler.go:97-102 | passes exactly as the validate use case decides, a use-case error counting as a refusal; a refusal leaves the OTPs alone, a pass consumes the code as the use case does |
| AuthHandler.AuthHandler.SignIn | internal/infrastructure/http/handlers/auth_handler.go:97-137 | the code check and then token issue and storage, with each failure's status and text |
| AuthHandler.AuthHandler.IssuePair | internal/infrastructure/http/handlers/auth_handler.go:104-122 | the two generated tokens, and the refresh token saved for the refresh TTL unless the save fails |
| AuthHandler.AuthHandler.RunChecks | internal/infrastructure/http/handlers/auth_handler.go:139-181 | the six checks in the handler's order, writing nothing |
| AuthHandler.AuthHandler.RefreshToken | internal/infrastructure/http/handlers/auth_handler.go:139-211 | a rejected check answers with its status and text and changes nothing; otherwise a new pair whose refresh token replaces the stored one, or 500 with the table unchanged |
| AuthHandler.CheckRefreshPassed | internal/infrastructure/http/handlers/auth_handler.go:141-181 | passing means: a non-empty token, accepted, of type refresh, whose user holds exactly this token live in the store |
| AuthHandler.CheckRefreshStatuses | internal/infrastructure/http/handlers/auth_handler.go:141-181 | a rejection is 400 exactly for a missing token, and 401 otherwise |
| AuthHandler.PresentedRejectsUnauthorized | internal/infrastructure/http/handlers/auth_handler.go:146-181 | once a token is present, every rejection is 401 |
| AuthHandler.ExpiredBranchUnreachable | internal/infrastructure/http/handlers/auth_handler.go:178-181 | with one clock the "Refresh token expired" answer never occurs, as the lookup already excluded expired rows |
| AuthHandler.StoredTokenRefreshes | internal/infrastructure/http/handlers/auth_handler.go:139-181 | a refresh token issued and stored by the handler passes every check until it expires |
| AuthHandler.ClaimsTimeless | internal/infrastructure/auth/jwt_service.go:55-84 | accepted claims do not depend on the instant of checking |
| AuthHandler.ReplacedTokenRejected | internal/infrastructure/http/handlers/auth_handler.go:166-176 | once the user's row holds another token, the old one is refused with 401 ("mismatch" when it reaches that check) |
| AuthHandler.LoggedOutTokenRejected | internal/infrastructure/http/handlers/auth_handler.go:166-171 | after logout the user's old refresh token is refused with 401 ("not found" for a refresh token) |
| AuthHandler.RotationRevokes | internal/infrastructure/http/handlers/auth_handler.go:183-201 | after a successful refresh whose new token id differs from the presented token's, the presented token is refused with 401 at any later instant |
| AuthHandler.FreshTokenDiffers | internal/infrastructure/auth/jwt_service.go:48 | a token whose id differs from the new id is not the new token |
| AuthHandler.NonEmptyToken | internal/infrastructure/http/handlers/auth_handler.go:141 | an accepted token is never empty |
| AuthHandler.AuthHandler.Logout | internal/infrastructure/http/handlers/auth_handler.go:213-228 | 401 without a user id; 500 on a store fault; otherwise the user's refresh row is removed (present or not) |
| AuthHandler.AuthHandler.CreateAuthToken | internal/infrastructure/http/handlers/auth_handler.go:230-269 | 401 without a user id; otherwise a new pair with the refresh token stored as in `VerifyOTP`, or 500 when the save fails |
| AuthHandler.AuthHandler.GetProfile | internal/infrastructure/http/handlers/auth_handler.go:272-293 | 401 without a user id; 404 for an unknown user; otherwise the id, name and mobile of the user with that id; nothing is written |
| Config.GetEnv | internal/infrastructure/config/config.go:73-78 | the variable's value when set and non-empty, else the default |
| Config.Validate | internal/infrastructure/config/config.go:80-130 | no error exactly when every field passes its check |
| Config.ValidateReportsFirst | internal/infrastructure/config/config.go:80-130 | the error reported is for the first failing check, in source order, and every earlier check passes; invalid ENV and OTP strength errors quote the value |
| Config.Load | internal/infrastructure/config/config.go:32-71 | computes `Loaded`: a configuration that loads always passes every validation check |
| Config.LoadDefaults | internal/infrastructure/config/config.go:33-34 | with no TTL variables set the TTLs are 15 minutes and 7 days, and loading succeeds exactly when the defaulted fields validate |
| Config.LoadRejectsBadTtl | internal/infrastructure/config/config.go:36-41 | a set `ACCESS_TOKEN_TTL` that does not parse fails the load with that value |
| Config.MagicOtpDefault | internal/infrastructure/config/config.go:57 | with `MAGIC_OTP` unset the magic code is the empty string |
| Config.DefaultsOfLoad | internal/infrastructure/config/config.go:51-63 | ENV defaults to "dev", PORT to "8080", strength to "easy"; a missing JWT secret fails validation |
| StringUtils.NullIfEmpty | internal/infrastructure/utils/string_utils.go:7-27 | nil for a non-string, a nil pointer or a blank string; otherwise the trimmed text |
| StringUtils.SafeToLower | internal/infrastructure/utils/string_utils.go:31-51 | nil exactly when `NullIfEmpty` is nil; otherwise its result lower-cased |
| StringUtils.PointerLikePointee | internal/infrastructure/utils/string_utils.go:15-23 | a non-nil pointer behaves as its pointee |
| StringUtils.BlankIsNil | internal/infrastructure/utils/string_utils.go:10-13 | an all-space string becomes nil |
| StringUtils.OtherIsNil | internal/infrastructure/utils/string_utils.go:24-26 | a value that is neither a string nor a string pointer becomes nil |
| StringUtils.ResultsAreTrimmed | internal/infrastructure/utils/string_utils.go:10-14 | a result is non-empty and neither starts nor ends with white space |
| StringUtils.Idempotent | internal/infrastructure/utils/string_utils.go:7-51 | normalising a normalised value changes nothing |
| StringUtils.NoUpperCase | internal/infrastructure/utils/string_utils.go:38 | `SafeToLower` results contain no upper-case letter |
| Strs.TrimSpaceShape | internal/infrastructure/utils/string_utils.go:10 | the result is a slice of the input with only white space cut on either side, and it neither starts nor ends with white space |
| Strs.TrimSpaceIdempotent | internal/infrastructure/utils/string_utils.go:10 | trimming twice equals trimming once |
| Strs.ToLowerIdempotent | internal/infrastructure/utils/string_utils.go:38 | lower-casing twice equals lower-casing once |
| Strs.TrimSpace | internal/infrastructure/utils/string_utils.go:10 | no contract of its own: `TrimSpaceShape` and `TrimSpaceIdempotent` state that only `unicode.IsSpace` white space is cut, at both ends, and that trimming is idempotent |
| Strs.ToLower | internal/infrastructure/utils/string_utils.go:38 | the same length; no ASCII upper-case letter remains; each ASCII capital becomes its small letter and every other character is kept |
| Strs.TrimPrefix | internal/infrastructure/utils/jwt_utils.go:21 | with the prefix, the input is the prefix followed by the result; otherwise the input is unchanged |
| Strs.TrimSuffix | internal/infrastructure/repositories/user_repository_impl.go:144-146 | with the suffix, the input is the result followed by the suffix; otherwise the input is unchanged |
| UserRepository.UserRepository.Create | internal/infrastructure/repositories/user_repository_impl.go:28-45 | sends the insert with the email through `SafeToLower` and the mobile and name through `NullIfEmpty` |
| UserRepository.UserRepository.Update | internal/infrastructure/repositories/user_repository_impl.go:82-99 | sends the update with the same normalisation and `updated_at` set to now |
| UserRepository.UserRepository.UpdateProfile | internal/infrastructure/repositories/user_repository_impl.go:112-155 | sends exactly the statement the builder makes for the request |
| UserRepository.UserRepository.UpdateProfileImage | internal/infrastructure/repositories/user_repository_impl.go:158-165 | sets `avatar_url` and `updated_at` for the user's id, with the placeholders in the source's order |
| UserRepository.UserRepository.constructor | internal/infrastructure/repositories/user_repository_impl.go:23-25 | no statements sent |
| UserRepository.BuildUpdateProfile | internal/infrastructure/repositories/user_repository_impl.go:113-148 | the imperative builder yields `ProfileStatement`: the present columns numbered $1.., then `updated_at` and the id |
| UserRepository.ProfileStatement | internal/infrastructure/repositories/user_repository_impl.go:113-148 | no contract of its own: `ProfileArgs`, `OnlyNameQuery`, `EmptyRequestQuery` and `BuildUpdateProfile` state its columns, placeholders and arguments |
| UserRepository.AddColumns | internal/infrastructure/repositories/user_repository_impl.go:113-126 | after the field loop the text holds one `col = $k, ` per present field, the values hold their normalised arguments, and `i` is the next number |
| UserRepository.AddColumn | internal/infrastructure/repositories/user_repository_impl.go:117-121 | one present field appends `col = $i, ` to the text and its value to the arguments, and advances `i` |
| UserRepository.FinishBuilding | internal/infrastructure/repositories/user_repository_impl.go:144-147 | trimming the trailing ", " leaves `UPDATE users SET ` and the comma-separated assignments |
| UserRepository.TrimCommaSpace | internal/infrastructure/repositories/user_repository_impl.go:144-146 | `TrimSuffix(p + ", ", ", ")` is `p` |
| UserRepository.ProfileArgs | internal/infrastructure/repositories/user_repository_impl.go:113-148 | one argument per placeholder: name, then email, as present, then `updated_at`, then the id |
| UserRepository.OnlyNameQuery | internal/infrastructure/repositories/user_repository_impl.go:113-147 | a name-only request gives `UPDATE users SET name = $1, updated_at = $2 WHERE id = $3` |
| UserRepository.EmptyRequestQuery | internal/infrastructure/repositories/user_repository_impl.go:113-147 | an empty request gives the invalid `UPDATE users SET , updated_at = $1 WHERE id = $2` |
| UserRepository.SameNormalisation | internal/infrastructure/repositories/user_repository_impl.go:35-37 | `UpdateProfile`, `Create` and `Update` normalise name and email the same way |
| UpdateUserProfile.UpdateUserProfileUseCase.Execute | internal/usecases/update_user_profile.go:21-31 | a request without a non-empty name or email is refused with "invalid input" and nothing is sent; otherwise the profile statement is sent and its fault passed on |
| UpdateUserProfile.UpdateUserProfileUseCase.constructor | internal/usecases/update_user_profile.go:17-19 | keeps the repository |
| UpdateUserProfile.AdmittedRequestSetsColumns | internal/usecases/update_user_profile.go:22-26 | an admitted request sets at least one column, so the empty-SET statement is never sent |
| UpdateUserProfile.WhitespaceNamePasses | internal/usecases/update_user_profile.go:22-26 | a name of spaces passes the check and writes NULL into `name` |
| UpdateUserSetting.UpdateUserSettingUseCase.Execute | internal/usecases/update_user_setting.go:22-32 | an unknown key is refused without a write; a valid key becomes a one-entry patch |
| UpdateUserSetting.UpdateUserSettingUseCase.constructor | internal/usecases/update_user_setting.go:17-19 | keeps the repository |
| SettingsRepository.SettingsRepository.Patch | internal/infrastructure/repositories/user_settings_repository_impl.go:40-67 | an empty map sends nothing and succeeds; the first invalid setting in iteration order is reported and nothing is sent; otherwise the one patch statement for that order is sent and its fault passed on |
| SettingsRepository.SettingsRepository.Reset | internal/infrastructure/repositories/user_settings_repository_impl.go:70-78 | an invalid setting is refused; a valid one sends `SET <col> = false` for the user |
| SettingsRepository.SettingsRepository.constructor | internal/infrastructure/repositories/user_settings_repository_impl.go:18-20 | no statements sent |
| SettingsRepository.PlaceholdersBind | internal/infrastructure/repositories/user_settings_repository_impl.go:45-63 | clause k names the k-th visited setting with `$k`, argument k is its value, and the user is the last argument |
| SettingsRepository.ClausesNumbered | internal/infrastructure/repositories/user_settings_repository_impl.go:49-56 | one clause per visited setting, the k-th using placeholder `$k` |
| SettingsRepository.ValuesInOrder | internal/infrastructure/repositories/user_settings_repository_impl.go:49-56 | one argument per visited setting, in visiting order, holding that setting's value |
| SettingsRepository.FirstInvalidExtends | internal/infrastructure/repositories/user_settings_repository_impl.go:49-52 | once an invalid setting is seen, later entries do not change which one is reported |
| SettingsRepository.FirstInvalidIsFirst | internal/infrastructure/repositories/user_settings_repository_impl.go:49-52 | no setting reported exactly when all are valid; a reported one is invalid and every earlier one valid |
| SettingsRepository.SingleUpdate | internal/infrastructure/repositories/user_settings_repository_impl.go:58-63 | a single entry gives `UPDATE user_settings SET <col> = $1, updated_at = now() WHERE user_id = $2` |
| SettingsRepository.PatchStatement | internal/infrastructure/repositories/user_settings_repository_impl.go:45-63 | no contract of its own: `PlaceholdersBind`, `ClausesNumbered`, `ValuesInOrder` and `SingleUpdate` state its clauses, placeholders and arguments |
| DomainSettings.AllowedShape | internal/domain/entities/user_settings.go:19-36 | exactly the three column names are valid |
| SettingColumns.IsValid | internal/entities/user_settings.go:26-34 | valid exactly for the three non-zero enumerators |
| SettingColumns.UnknownIsInvalid | internal/entities/user_settings.go:17-34 | the zero enumerator is invalid and has no column |
| SettingColumns.ColumnName | internal/entities/user_settings.go:36-47 | a non-empty column exactly for valid settings, and then one the domain accepts |
| SettingColumns.ColumnNameInjective | internal/entities/user_settings.go:36-47 | distinct valid settings have distinct columns |
| SettingColumns.ColumnNameOnto | internal/entities/user_settings.go:36-47 | every allowed column is some setting's name |
| GenericKv.KvQuery | internal/infrastructure/repositories/generic_kv_repository_impl.go:20-35 | a query exists exactly for types 1 and 2 |
| GenericKv.CacheKeyInjective | internal/infrastructure/repositories/generic_kv_repository_impl.go:49 | distinct (type, language) pairs have distinct cache keys |
| GenericKv.CacheIsolation | internal/infrastructure/repositories/generic_kv_repository_impl.go:49-56 | caching one pair's items changes no other pair's lookup |
| GenericKv.CollectSpec | internal/infrastructure/repositories/generic_kv_repository_impl.go:71-78 | rows collect exactly when each one scans, into the items in order; a failed scan is the error |
| GenericKv.CollectStops | internal/infrastructure/repositories/generic_kv_repository_impl.go:72-76 | the first failing scan ends the collection, whatever rows follow |
| GenericKv.Collect | internal/infrastructure/repositories/generic_kv_repository_impl.go:71-78 | no contract of its own: `CollectSpec` and `CollectStops` state it |
| GenericKv.CacheKey | internal/infrastructure/repositories/generic_kv_repository_impl.go:49 | no contract of its own: `CacheKeyInjective`, `NoColonInInt` and `CacheIsolation` state that keys of distinct pairs differ |
| GenericKv.NoColonInInt | internal/infrastructure/repositories/generic_kv_repository_impl.go:49 | the type number in a cache key contains no colon, so the key splits unambiguously |
| GenericKv.GenericKvRepository.GetKV | internal/infrastructure/repositories/generic_kv_repository_impl.go:48-88 | a cache hit answers without a query; an unknown type is refused; otherwise one query, and a successful result is cached under the pair's key |
| GenericKv.GenericKvRepository.constructor | internal/infrastructure/repositories/generic_kv_repository_impl.go:43-46 | an empty cache and no queries sent |
| GetCoffeeEntries.EffectiveLimit | internal/usecases/get_coffee_entries.go:25-27 | a non-positive limit becomes 50 |
| GetCoffeeEntries.ParseDate | internal/usecases/get_coffee_entries.go:36 | a date that parses is a real calendar date: month 1..12, a day within that month (leap years included), a non-negative year |
| GetCoffeeEntries.ParseFormatDate | internal/usecases/get_coffee_entries.go:36 | every valid date with a four-digit year reads back from its layout |
| GetCoffeeEntries.LayoutRejects | internal/usecases/get_coffee_entries.go:36-39 | unpadded, slash-separated, month 13 and 29 February of a common year are refused |
| GetCoffeeEntries.Execute | internal/usecases/get_coffee_entries.go:24-64 | a bad date is "invalid input" with no fetch; otherwise the window query is fetched: an error is "internal error", a nil result the empty list, and entries are returned as fetched |
| GetCoffeeEntries.BadDateFetchesNothing | internal/usecases/get_coffee_entries.go:36-39 | with a bad date the result does not depend on the store at all |
| GetCoffeeEntries.QueryWindow | internal/usecases/get_coffee_entries.go:42-51 | the window is 24 hours starting at local midnight, that is UTC midnight minus the offset |
| GetCoffeeEntries.Query | internal/usecases/get_coffee_entries.go:24-58 | no contract of its own: `QueryWindow` and `WindowsAdjoin` state its window, `EffectiveLimit` its limit |
| GetCoffeeEntries.AdjustTimeWithOffsetMinutes | internal/usecases/get_coffee_entries.go:67-78 | no contract of its own: `QueryWindow` states that the window starts at the date's UTC midnight minus `offsetMinutes`, the local midnight of that zone |
| GetCoffeeEntries.WindowsAdjoin | internal/usecases/get_coffee_entries.go:50-51 | consecutive days' windows meet without gap or overlap |
| GetCoffeeEntries.NextDay | internal/usecases/get_coffee_entries.go:50-51 | the day after a date (within its month) is numbered one higher |
| GetCoffeeEntries.DaysIn | internal/usecases/get_coffee_entries.go:36 | every month has 28 to 31 days |
| GetCoffeeEntries.KnownDays | internal/usecases/get_coffee_entries.go:36 | day numbering is days since 1970-01-01 (2025-08-21 is day 20321) |
| GenerateUtils.GenerateStringWithCharset | internal/infrastructure/utils/generate_utils.go:18-24 | the loop yields one charset character per draw, in order |
| GenerateUtils.GenerateString | internal/infrastructure/utils/generate_utils.go:14-16 | the result has the requested length and only ASCII letters and digits |
| GenerateUtils.CharsetShape | internal/infrastructure/utils/generate_utils.go:8-9 | 62 distinct characters, exactly the ASCII letters and digits |
| GenerateUtils.PickedFaithful | internal/infrastructure/utils/generate_utils.go:18-24 | different draws give different strings |
| GenerateUtils.EmptyLength | internal/infrastructure/utils/generate_utils.go:18-24 | length 0 gives the empty string |
| UploadProfileImage.Ext | internal/usecases/upload_user_profile_image.go:34 | `path.Ext`: the suffix from the last '.' of the last path element, or "" when that element has none |
| UploadProfileImage.ExtExamples | internal/usecases/upload_user_profile_image.go:34 | ".jpg", ".gz" for "archive.tar.gz", and "" when the dot is in a directory name |
| UploadProfileImage.ExtAfterDot | internal/usecases/upload_user_profile_image.go:34 | a name ending in "." followed by dot- and slash-free text has that suffix as its extension |
| UploadProfileImage.ExtAfterSlash | internal/usecases/upload_user_profile_image.go:34 | a path whose last element has no dot has no extension |
| UploadProfileImage.ObjectPathShape | internal/usecases/upload_user_profile_image.go:35 | the path is the user's UUID, '/', ten random alphanumerics, then the extension |
| UploadProfileImage.ObjectPath | internal/usecases/upload_user_profile_image.go:33-35 | no contract of its own: `ObjectPathShape` states it |
| UploadProfileImage.StorageService.UploadFile | internal/infrastructure/storage/supabase_storage.go:94-95 | records the request (bucket, object path, images-only flag) and returns the storage outcome |
| UploadProfileImage.UploadUserProfileImageUseCase.Execute | internal/usecases/upload_user_profile_image.go:31-55 | one upload to the configured bucket; a storage error is returned with no database write; otherwise the avatar URL is written, and returned unless that write fails |
| UploadProfileImage.UploadUserProfileImageUseCase.constructor | internal/usecases/upload_user_profile_image.go:27-29 | keeps the repository, the storage service and the configuration |
| UploadProfileImage.StorageService.constructor | internal/infrastructure/storage/supabase_storage.go:25-31 | no upload requests yet |
| UseCaseErrors.MessagesDistinct | internal/usecases/errors.go:5-14 | the error messages are distinct |
| UseCaseErrors.UseCaseError.Message | internal/usecases/errors.go:5-14 | every error has a non-empty message |
| Uuids.ParseToString | internal/infrastructure/auth/jwt_service.go:93-98 | the canonical string of a UUID parses back to it |
| Uuids.ToString | internal/infrastructure/auth/jwt_service.go:29 | `UUID.String()`: 36 ASCII characters with dashes at positions 8, 13, 18 and 23 |
| Uuids.ToStringInjective | internal/infrastructure/auth/jwt_service.go:29 | distinct UUIDs have distinct strings |
| Uuids.Parse | internal/infrastructure/auth/jwt_service.go:98 | no contract of its own: `ParseToString` states that canonical strings read back; `NonAsciiRefused`, `RejectedLength` and `RejectedUrnPrefix` state which strings are refused |
| Uuids.NonAsciiRefused | internal/infrastructure/auth/jwt_service.go:98 | a string holding any character of code 0x80 or more is refused, as Go's byte-wise parse refuses every UTF-8 string with a non-ASCII character |
| Uuids.ParseFailure | internal/infrastructure/auth/jwt_service.go:98 | the error `uuid.Parse` gives: the length error exactly for lengths other than 32, 36, 38 and 45, carrying that length; the prefix error exactly for 45 characters not starting with "urn:uuid:" in any case, carrying those nine characters; otherwise the format error |
| Uuids.RejectedLength | internal/infrastructure/auth/jwt_service.go:98 | a string of any other length is refused with "invalid UUID length: " and its length |
| Uuids.RejectedUrnPrefix | internal/infrastructure/auth/jwt_service.go:98 | a 45-character string with a wrong prefix is refused with "invalid urn prefix: " and the quoted prefix |
| Uuids.Quote | internal/infrastructure/auth/jwt_service.go:98 | `%q`: the text opens and closes with a double quote around at least the original characters |
| Uuids.EscapedPlain | internal/infrastructure/auth/jwt_service.go:98 | a text with no quote and no backslash appears inside `%q`'s quotes unchanged |
| Hex.DecodeEncode | internal/services/auth_service.go:65 | hex decoding undoes `hex.EncodeToString` |
| Hex.Encode | internal/services/auth_service.go:105 | `hex.EncodeToString`: two lower-case hex digits per byte |
| Hex.EncodeAppend | internal/services/auth_service.go:105 | encoding distributes over concatenation |
| Hex.EncodeInjective | internal/services/auth_service.go:105 | distinct byte strings have distinct encodings |
| Numerals.SixDigitRendering | internal/usecases/generate_otp.go:23 | `%06d` of a six-digit number is its plain numeral and reads back as it |
| Numerals.ParseIntToString | internal/infrastructure/repositories/user_repository_impl.go:118 | `strconv.Itoa` reads back as the integer |
| Numerals.IntToStringInjective | internal/infrastructure/repositories/user_repository_impl.go:118 | distinct placeholder numbers render differently |
| Numerals.NatToStringLength | internal/usecases/generate_otp.go:23 | a number of k digits renders as k characters |

## Left out

- `time.Now()` and the database's `NOW()` are one instant. The source reads two clocks, so the "Refresh token expired" branch of `RefreshToken` (auth_handler.go:178-181) is reachable there in a tiny window. Here it is unreachable (`ExpiredBranchUnreachable`).
- The 500 answers for a failed `GenerateAccessToken`/`GenerateRefreshToken` are not modelled. HS256 signing with a byte key cannot fail.
- `RefreshToken` calls `jwtService.ValidateToken`, which `JWTService` does not declare. It is modelled as `ValidateTokenString`.
- `UpdateUserProfileUseCase` passes a `dto.UpdateUserProfileRequest` to a repository that takes `models.UpdateUserProfileRequest`. Both have the same two optional fields and are one type here.
- Multi-line SQL literals are written on one line with single spaces. Only the statement's words, placeholders and arguments are modelled.
- Go map iteration order is a parameter (`order`) constrained by `IsWalkOf`. It is not an unspecified choice inside the model.
- The settings repository interface has no `Patch` method. The implementation's signature is the one modelled.
- `UploadUserProfileImageUseCase` calls `UpdateAProfileImage`. The domain `UserRepository` interface declares it (internal/domain/repositories/user_repository.go:22), but no implementation defines it: `UserRepositoryImpl` defines only `UpdateProfileImage` (internal/infrastructure/repositories/user_repository_impl.go:158), the name internal/repositories/user_repository.go:21 declares. The model binds the call to the implemented `UpdateProfileImage`.
- `StorageService.UploadFile` takes four parameters in the interface and five in the Supabase implementation. The model takes bucket, path and the images-only flag; the reader is not modelled. MIME checks and the network request are not modelled.
- `avatarFileNameLangth = 10.` is an untyped float constant. It is used as the integer 10.
- `GetCoffeeEntries` dereferences `dateStr` without a nil check. The nil-pointer panic is not modelled: the date is always a string.
- GetCoffeeEntries.AdjustTimeWithOffsetMinutes: does not model overflow of `offsetMinutes*60` in Go's `int`, because integers here are unbounded.
- GetCoffeeEntries.ParseDate: reports every layout or range failure as one `None`, where `time.Parse` gives distinct error texts; the use case discards them anyway.
- The go-cache TTL and its cleanup interval are not modelled. Cached entries never expire in `GenericKvRepository`, and `Lookup` ignores the 10-minute expiry.
- `entities.KVItem` is a type parameter `I`: only the scan outcome of each row matters.
- `UserMiddleware`'s TTL argument is unused in the source and is only recorded. The `sync.RWMutex` and concurrency in general are not modelled.
- The repositories' `Get`, `Delete` and `DeleteProfileImage`, and the settings `Get`, are not modelled: they are not among the operations this core's properties concern. The user lookups are `ByField` over a list of users, not a query.
- AuthHandler.ByField: every stored user reads back. `getUserByField` (user_repository_impl.go:48-64) scans `email`, `mobile` and `name` into plain Go strings, so a row whose blank name or mobile `Create` wrote as NULL fails to scan. It also reports every query or scan error, not only "no rows", as "user not found by …". Neither the NULL scan failure nor a database error is modelled.
- Jwt.NumericDate: claim numbers are integers. golang-jwt reads `exp` and `nbf` as `float64`: a fractional value is a set date truncated to the second (so 0.5 is not "unset"), and integers above 2^53 lose precision. Neither is modelled. The service only issues whole seconds, and any other claim set would need the secret to be signed.
- Jwt.TokenError.Message: a malformed token's text stops at "token is malformed". The library adds ": " and its detail, such as "token contains an invalid number of segments", and the codec does not model which step of the base64 and JSON decoding failed.
- Jwt.TokenError.Message: several claim issues are joined with a newline, as `errors.Join` does from Go 1.20 on. Earlier Go versions make golang-jwt join them with ", ". The Go version is not part of this model.
- Jwt.ValidateTokenString: a header whose `alg` is not a string ("signing method (alg) is unspecified") cannot be written with the codec, whose header holds a string. An undecodable signature is "malformed" here even when the algorithm is unregistered, where golang-jwt reports the unregistered algorithm first.
- Uuids.Quote: `%q` also escapes control and non-printable characters (`\n`, `\x00`, `\u00a0`, …). Only quotes and backslashes are escaped here.
- Uuids.ParseFailure: lengths count characters, where Go counts bytes. A string with non-ASCII characters fails in both (`NonAsciiRefused`), but its length error (or the quoted nine-byte prefix) can differ.
- Strs.ToLower: lower-cases only ASCII letters, where `strings.ToLower` maps all Unicode letters.
- HMAC-SHA256 is the function parameter `Mac`, and base64url JSON is replaced by an injective codec of the same three-segment shape. The HMAC's own collision resistance is not modelled.
- The `log.Printf` of the OTP in `RequestOTP` and the other log lines are not modelled.
- Writing JSON responses, headers and status lines is reduced to the `Response` datatype.
- `utils.GetUserIDOrAbort`'s response body is reduced to a 401 with a fixed text.
- `UploadImage`'s `time.Now().UTC()` is the same instant `now` as the repository call.
- The handler holds `GetUserByID`, `GetUserByMobile`, `SaveRefreshToken`, `GetRefreshToken` and `DeleteRefreshToken` use cases. Each one only forwards to a repository, so the handler model calls the refresh store and the user lookups directly. Those use cases pass a device id that the SQL does not use.
- `log.Fatal` on a nil JWT service in `NewAuthHandler` is not modelled: the service is always present.
- `contextkeys.UserFromContext` is not modelled as a member. `UserMiddleware.AdmittedIsActive` states what `CurrentUserKey` holds after the middleware.
