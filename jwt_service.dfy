/**
 * The token service of internal/infrastructure/auth: access and refresh tokens
 * signed with HS256 (section 3.2 of RFC 7518), their validation as
 * `golang-jwt/jwt/v5`'s `Parse` performs it followed by the service's own
 * expiry check, and the `sub` claim read back as a UUID.
 *
 * Time is one integer clock in nanoseconds since the Unix epoch (`time.Time`);
 * durations are nanoseconds (`time.Duration`); JWT numeric dates are whole
 * seconds (section 2 of RFC 7519).
 */
module Jwt {
  import opened Wrappers
  import opened JwtCodec
  import Uuids
  import Strs

  const NanosPerSecond: int := 1_000_000_000

  /** `time.Time.Unix()`: whole seconds since the epoch, rounded down. */
  function UnixSeconds(t: int): (r: int)
    ensures r * NanosPerSecond <= t < (r + 1) * NanosPerSecond
  {
    t / NanosPerSecond
  }

  /**
   * The keyed hash `crypto/hmac` computes for the named algorithm over the
   * signing input. The model keeps it as a parameter: no property proved here
   * depends on what it computes.
   */
  type Mac = (string, string, string) -> seq<byte>

  datatype JwtService = JwtService(secret: string, accessExpiry: int, refreshExpiry: int, hmac: Mac)
  {
    function AccessExpiry(): int { accessExpiry }

    function RefreshExpiry(): int { refreshExpiry }
  }

  /** `NewJWTService`: the getters return the arguments unchanged. */
  function NewJwtService(secret: string, accessExpiry: int, refreshExpiry: int, hmac: Mac): (s: JwtService)
    ensures s.AccessExpiry() == accessExpiry && s.RefreshExpiry() == refreshExpiry
    ensures s.secret == secret
  {
    JwtService(secret, accessExpiry, refreshExpiry, hmac)
  }

  const Authenticated: string := "authenticated"

  /** `time.Now().Add(d).Unix()` moves by exactly `d` in seconds when `d` is a whole number of seconds. */
  lemma UnixSecondsShift(t: int, k: int)
    ensures UnixSeconds(t + k * NanosPerSecond) == UnixSeconds(t) + k
  {
    var q := UnixSeconds(t);
    assert (q + k) * NanosPerSecond <= t + k * NanosPerSecond < (q + k + 1) * NanosPerSecond;
  }

  /** The `jwt.MapClaims` literal of `GenerateAccessToken`, issued at `now` with token id `jti`. */
  function AccessClaims(user: Uuids.Uuid, now: int, expiry: int, jti: Uuids.Uuid): Claims
  {
    map["sub" := JString(Uuids.ToString(user)),
        "aud" := JString(Authenticated),
        "role" := JString(Authenticated),
        "exp" := JNumber(UnixSeconds(now + expiry)),
        "iat" := JNumber(UnixSeconds(now)),
        "type" := JString("access"),
        "token" := JString(Uuids.ToString(jti))]
  }

  /** The `jwt.MapClaims` literal of `GenerateRefreshToken`: no audience and no role. */
  function RefreshClaims(user: Uuids.Uuid, now: int, expiry: int, jti: Uuids.Uuid): Claims
  {
    map["sub" := JString(Uuids.ToString(user)),
        "exp" := JNumber(UnixSeconds(now + expiry)),
        "iat" := JNumber(UnixSeconds(now)),
        "type" := JString("refresh"),
        "token" := JString(Uuids.ToString(jti))]
  }

  /** The members `encoding/json` writes for `AccessClaims`: the map's keys in sorted order. */
  function AccessMembers(user: Uuids.Uuid, now: int, expiry: int, jti: Uuids.Uuid): (m: Members)
    ensures ClaimsOf(m) == AccessClaims(user, now, expiry, jti)
  {
    var m := [ ("aud", JString(Authenticated)),
               ("exp", JNumber(UnixSeconds(now + expiry))),
               ("iat", JNumber(UnixSeconds(now))),
               ("role", JString(Authenticated)),
               ("sub", JString(Uuids.ToString(user))),
               ("token", JString(Uuids.ToString(jti))),
               ("type", JString("access")) ];
    assert m == [] + [m[0]] + [m[1]] + [m[2]] + [m[3]] + [m[4]] + [m[5]] + [m[6]];
    ClaimsOfSnoc([], m[0].0, m[0].1);
    ClaimsOfSnoc([] + [m[0]], m[1].0, m[1].1);
    ClaimsOfSnoc([] + [m[0]] + [m[1]], m[2].0, m[2].1);
    ClaimsOfSnoc([] + [m[0]] + [m[1]] + [m[2]], m[3].0, m[3].1);
    ClaimsOfSnoc([] + [m[0]] + [m[1]] + [m[2]] + [m[3]], m[4].0, m[4].1);
    ClaimsOfSnoc([] + [m[0]] + [m[1]] + [m[2]] + [m[3]] + [m[4]], m[5].0, m[5].1);
    ClaimsOfSnoc([] + [m[0]] + [m[1]] + [m[2]] + [m[3]] + [m[4]] + [m[5]], m[6].0, m[6].1);
    m
  }

  /** The members `encoding/json` writes for `RefreshClaims`. */
  function RefreshMembers(user: Uuids.Uuid, now: int, expiry: int, jti: Uuids.Uuid): (m: Members)
    ensures ClaimsOf(m) == RefreshClaims(user, now, expiry, jti)
  {
    var m := [ ("exp", JNumber(UnixSeconds(now + expiry))),
               ("iat", JNumber(UnixSeconds(now))),
               ("sub", JString(Uuids.ToString(user))),
               ("token", JString(Uuids.ToString(jti))),
               ("type", JString("refresh")) ];
    assert m == [] + [m[0]] + [m[1]] + [m[2]] + [m[3]] + [m[4]];
    ClaimsOfSnoc([], m[0].0, m[0].1);
    ClaimsOfSnoc([] + [m[0]], m[1].0, m[1].1);
    ClaimsOfSnoc([] + [m[0]] + [m[1]], m[2].0, m[2].1);
    ClaimsOfSnoc([] + [m[0]] + [m[1]] + [m[2]], m[3].0, m[3].1);
    ClaimsOfSnoc([] + [m[0]] + [m[1]] + [m[2]] + [m[3]], m[4].0, m[4].1);
    m
  }

  /**
   * Access claims: `sub` is the user, `aud` and `role` are "authenticated", the
   * type is "access", and `exp` lies the access expiry after `iat` (exactly,
   * for an expiry of whole seconds).
   */
  lemma AccessClaimsShape(user: Uuids.Uuid, now: int, expiry: int, jti: Uuids.Uuid)
    ensures var c := AccessClaims(user, now, expiry, jti);
      && c.Keys == {"sub", "aud", "role", "exp", "iat", "type", "token"}
      && c["sub"] == JString(Uuids.ToString(user)) && c["type"] == JString("access")
      && c["aud"] == c["role"] == JString(Authenticated)
      && c["exp"].JNumber? && c["iat"].JNumber?
      && (expiry >= 0 ==> c["iat"].n <= c["exp"].n <= c["iat"].n + expiry / NanosPerSecond + 1)
      && (expiry % NanosPerSecond == 0 ==> c["exp"].n - c["iat"].n == expiry / NanosPerSecond)
  {
    IssuedWindow(now, expiry);
  }

  /** Refresh claims: `sub` is the user, the type is "refresh", no `aud` or `role`, and `exp` is the refresh expiry after `iat`. */
  lemma RefreshClaimsShape(user: Uuids.Uuid, now: int, expiry: int, jti: Uuids.Uuid)
    ensures var c := RefreshClaims(user, now, expiry, jti);
      && c.Keys == {"sub", "exp", "iat", "type", "token"}
      && "aud" !in c && "role" !in c
      && c["sub"] == JString(Uuids.ToString(user)) && c["type"] == JString("refresh")
      && c["exp"].JNumber? && c["iat"].JNumber?
      && (expiry % NanosPerSecond == 0 ==> c["exp"].n - c["iat"].n == expiry / NanosPerSecond)
  {
    IssuedWindow(now, expiry);
  }

  /** For a non-negative expiry, `exp` is `iat` plus the expiry in seconds, rounded either way. */
  lemma IssuedWindow(now: int, expiry: int)
    ensures expiry % NanosPerSecond == 0 ==> UnixSeconds(now + expiry) - UnixSeconds(now) == expiry / NanosPerSecond
    ensures expiry >= 0 ==> UnixSeconds(now) <= UnixSeconds(now + expiry) <= UnixSeconds(now) + expiry / NanosPerSecond + 1
  {
    var k := expiry / NanosPerSecond;
    assert expiry == k * NanosPerSecond + expiry % NanosPerSecond;
    if expiry % NanosPerSecond == 0 {
      UnixSecondsShift(now, k);
    }
  }

  /**
   * `jwt.NewWithClaims(jwt.SigningMethodHS256, claims).SignedString(key)`, the
   * claims written as `members`. With a `[]byte` key HS256 signing cannot
   * fail, so the result is the token itself.
   */
  function SignHS256(secret: string, hmac: Mac, members: Members): (s: string)
    ensures Parse(s) == Some(Parsed(Token(Header("HS256"), members, hmac("HS256", secret, SigningInput(Header("HS256"), members))),
                                    SigningInput(Header("HS256"), members)))
  {
    var h := Header("HS256");
    var t := Token(h, members, hmac("HS256", secret, SigningInput(h, members)));
    ParseSerialize(t);
    Serialize(t)
  }

  function GenerateAccessToken(svc: JwtService, user: Uuids.Uuid, now: int, jti: Uuids.Uuid): string
  {
    SignHS256(svc.secret, svc.hmac, AccessMembers(user, now, svc.accessExpiry, jti))
  }

  function GenerateRefreshToken(svc: JwtService, user: Uuids.Uuid, now: int, jti: Uuids.Uuid): string
  {
    SignHS256(svc.secret, svc.hmac, RefreshMembers(user, now, svc.refreshExpiry, jti))
  }

  // ---- validation ---------------------------------------------------------

  /** Why a claim failed the library's validation (`jwt.ErrTokenExpired`, `ErrTokenNotValidYet`, `ErrInvalidType`). */
  datatype ClaimIssue = Expired | NotValidYet | InvalidType(key: string)
  {
    function Message(): string
    {
      match this
      case Expired => "token is expired"
      case NotValidYet => "token is not valid yet"
      case InvalidType(key) => "invalid type for claim: " + key + " is invalid"
    }
  }

  /** The issues' texts in order, as `errors.Join` lists them. */
  function IssueMessages(issues: seq<ClaimIssue>): (ms: seq<string>)
    ensures |ms| == |issues|
    ensures forall i :: 0 <= i < |issues| ==> ms[i] == issues[i].Message()
  {
    if issues == [] then [] else [issues[0].Message()] + IssueMessages(issues[1..])
  }

  /** What `ValidateTokenString` puts before every error `jwt.Parse` returns. */
  const InvalidTokenPrefix: string := "invalid token: "

  datatype TokenError =
    | Malformed                       // the string is not a token
    | AlgUnavailable(alg: string)     // no signing method is registered under `alg`
    | UnexpectedSigningMethod(alg: string)
    | SignatureInvalid
    | InvalidClaims(issues: seq<ClaimIssue>)
    | TokenExpired                    // the service's own check
    | UserIdNotFound                  // no non-empty string `sub`
    | InvalidUuid(cause: Uuids.ParseError)
  {
    /** The error came out of `jwt.Parse`, rather than the service's own checks or `uuid.Parse`. */
    predicate FromParser()
    {
      Malformed? || AlgUnavailable? || UnexpectedSigningMethod? || SignatureInvalid? || InvalidClaims?
    }

    /**
     * `err.Error()`: the library's texts (a sentinel error, then its detail
     * after ": ") behind `InvalidTokenPrefix`, or the service's own texts,
     * or the text of `uuid.Parse`'s error.
     */
    function Message(): (m: string)
      ensures FromParser() <==> Strs.HasPrefix(m, InvalidTokenPrefix)
    {
      match this
      case Malformed => InvalidTokenPrefix + "token is malformed"
      case AlgUnavailable(_) => InvalidTokenPrefix + "token is unverifiable: signing method (alg) is unavailable"
      case UnexpectedSigningMethod(alg) =>
        InvalidTokenPrefix + "token is unverifiable: error while executing keyfunc: unexpected signing method: " + alg
      case SignatureInvalid => InvalidTokenPrefix + "token signature is invalid: signature is invalid"
      case InvalidClaims(issues) => InvalidTokenPrefix + "token has invalid claims: " + Strs.Join(IssueMessages(issues), "\n")
      case TokenExpired => "token expired"
      case UserIdNotFound =>
        assert "user ID not found in token"[0] != InvalidTokenPrefix[0];
        "user ID not found in token"
      case InvalidUuid(cause) =>
        assert |cause.Message()| > 8 && cause.Message()[8] != InvalidTokenPrefix[8];
        cause.Message()
    }
  }

  /** The algorithms golang-jwt registers: HMAC, RSA, RSA-PSS, ECDSA, Ed25519 and "none". */
  predicate IsRegisteredAlg(alg: string)
  {
    IsHmacAlg(alg) || alg == "RS256" || alg == "RS384" || alg == "RS512" || alg == "PS256" || alg == "PS384"
    || alg == "PS512" || alg == "ES256" || alg == "ES384" || alg == "ES512" || alg == "EdDSA" || alg == "none"
  }

  /** The algorithms `jwt.GetSigningMethod` maps to `*jwt.SigningMethodHMAC`. */
  predicate IsHmacAlg(alg: string)
  {
    alg == "HS256" || alg == "HS384" || alg == "HS512"
  }

  /**
   * A numeric date claim as `MapClaims.parseNumericDate` reads it: absent and 0
   * both mean "not set", a number is a date in seconds, anything else is an error.
   */
  function NumericDate(c: Claims, key: string): (r: Result<Option<int>, ClaimIssue>)
    ensures r == Err(InvalidType(key)) <==> key in c && !c[key].JNumber?
    ensures r == Ok(None) <==> key !in c || c[key] == JNumber(0)
    ensures r.Ok? && r.value.Some? ==> key in c && c[key] == JNumber(r.value.value)
  {
    if key !in c then Ok(None)
    else
      match c[key]
      case JNumber(n) => if n == 0 then Ok(None) else Ok(Some(n))
      case _ => Err(InvalidType(key))
  }

  /** `verifyExpiresAt`: valid while `now` is before the expiry instant. */
  function ExpiryIssues(c: Claims, now: int): seq<ClaimIssue>
  {
    match NumericDate(c, "exp")
    case Err(e) => [e]
    case Ok(None) => []
    case Ok(Some(exp)) => if now < exp * NanosPerSecond then [] else [Expired]
  }

  /** `verifyNotBefore`: valid from the not-before instant on. */
  function NotBeforeIssues(c: Claims, now: int): seq<ClaimIssue>
  {
    match NumericDate(c, "nbf")
    case Err(e) => [e]
    case Ok(None) => []
    case Ok(Some(nbf)) => if now < nbf * NanosPerSecond then [NotValidYet] else []
  }

  /** `jwt.Validator.Validate` with the default options: only `exp` and `nbf` are examined. */
  function ClaimIssues(c: Claims, now: int): (r: seq<ClaimIssue>)
    ensures r == [] <==>
      (NumericDate(c, "exp").Ok? && NumericDate(c, "nbf").Ok?
       && (NumericDate(c, "exp").value.Some? ==> now < NumericDate(c, "exp").value.value * NanosPerSecond)
       && (NumericDate(c, "nbf").value.Some? ==> NumericDate(c, "nbf").value.value * NanosPerSecond <= now))
  {
    ExpiryIssues(c, now) + NotBeforeIssues(c, now)
  }

  /**
   * `ValidateTokenString` at instant `now`: `jwt.Parse` (alg, then signature,
   * then claims), then the service's own test that `exp` is not before `now`.
   */
  function ValidateTokenString(svc: JwtService, s: string, now: int): Result<Claims, TokenError>
  {
    match Parse(s)
    case None => Err(Malformed)
    case Some(p) => ValidateParsed(svc, p, now)
  }

  /** The checks of `ValidateTokenString` once the string has been split into a token. */
  function ValidateParsed(svc: JwtService, p: Parsed, now: int): Result<Claims, TokenError>
  {
    var alg := p.token.header.alg;
    if !IsRegisteredAlg(alg) then Err(AlgUnavailable(alg))
    else if !IsHmacAlg(alg) then Err(UnexpectedSigningMethod(alg))
    else if p.token.signature != svc.hmac(alg, svc.secret, p.signingInput) then Err(SignatureInvalid)
    else
      var claims := ClaimsOf(p.token.members);
      var issues := ClaimIssues(claims, now);
      if issues != [] then Err(InvalidClaims(issues))
      else if ExtraExpiryCheckFails(claims, now) then Err(TokenExpired)
      else Ok(claims)
  }

  /** `claims["exp"].(float64)` holds and `time.Unix(exp, 0)` is before `now`. */
  predicate ExtraExpiryCheckFails(c: Claims, now: int)
  {
    "exp" in c && c["exp"].JNumber? && c["exp"].n * NanosPerSecond < now
  }

  /**
   * The user id of validated claims: `sub` must be a non-empty string, else
   * "user ID not found in token"; then `uuid.Parse` decides, its error
   * passed on as it is.
   */
  function UserIdOf(c: Claims): (r: Result<Uuids.Uuid, TokenError>)
    ensures !("sub" in c && c["sub"].JString? && c["sub"].s != "") ==> r == Err(UserIdNotFound)
    ensures "sub" in c && c["sub"].JString? && c["sub"].s != "" && Uuids.Parse(c["sub"].s).None? ==>
              r == Err(InvalidUuid(Uuids.ParseFailure(c["sub"].s)))
    ensures "sub" in c && c["sub"].JString? && Uuids.Parse(c["sub"].s).Some? ==> r == Ok(Uuids.Parse(c["sub"].s).value)
    ensures r.Ok? ==> "sub" in c && c["sub"].JString? && Uuids.Parse(c["sub"].s) == Some(r.value)
  {
    if "sub" !in c || !c["sub"].JString? || c["sub"].s == "" then Err(UserIdNotFound)
    else
      match Uuids.Parse(c["sub"].s)
      case None => Err(InvalidUuid(Uuids.ParseFailure(c["sub"].s)))
      case Some(u) => Ok(u)
  }

  /** `ExtractUserIDFromToken`: a validation error passed on, or the user id of the validated claims. */
  function ExtractUserIdFromToken(svc: JwtService, s: string, now: int): (r: Result<Uuids.Uuid, TokenError>)
    ensures r.Ok? ==> ValidateTokenString(svc, s, now).Ok?
    ensures r.Ok? ==> var c := ValidateTokenString(svc, s, now).value;
                      "sub" in c && c["sub"].JString? && Uuids.Parse(c["sub"].s) == Some(r.value)
    ensures ValidateTokenString(svc, s, now).Err? ==> r == Err(ValidateTokenString(svc, s, now).error)
    ensures ValidateTokenString(svc, s, now).Ok? ==> r == UserIdOf(ValidateTokenString(svc, s, now).value)
  {
    match ValidateTokenString(svc, s, now)
    case Err(e) => Err(e)
    case Ok(c) => UserIdOf(c)
  }

  /** `IsRefreshToken`: the `type` claim is the string "refresh". */
  predicate IsRefreshToken(c: Claims)
  {
    "type" in c && c["type"] == JString("refresh")
  }

  // ---- properties ---------------------------------------------------------

  /** Whatever validation accepts was signed: its signature is the MAC, under the service's secret, of what it carries. */
  lemma AcceptedMeansSigned(svc: JwtService, t: Token, now: int)
    requires ValidateTokenString(svc, Serialize(t), now).Ok?
    ensures IsHmacAlg(t.header.alg)
    ensures t.signature == svc.hmac(t.header.alg, svc.secret, SigningInput(t.header, t.members))
    ensures ValidateTokenString(svc, Serialize(t), now).value == ClaimsOf(t.members)
  {
    ParseSerialize(t);
    var p := Parsed(t, SigningInput(t.header, t.members));
    assert ValidateTokenString(svc, Serialize(t), now) == ValidateParsed(svc, p, now);
  }

  /**
   * A token whose header names a non-HMAC algorithm is refused, whatever its
   * signature and claims: by the key function when the library knows the
   * algorithm, before it when it does not.
   */
  lemma NonHmacRejected(svc: JwtService, t: Token, now: int)
    requires !IsHmacAlg(t.header.alg)
    ensures IsRegisteredAlg(t.header.alg) ==>
              ValidateTokenString(svc, Serialize(t), now) == Err(UnexpectedSigningMethod(t.header.alg))
    ensures !IsRegisteredAlg(t.header.alg) ==>
              ValidateTokenString(svc, Serialize(t), now) == Err(AlgUnavailable(t.header.alg))
  {
    ParseSerialize(t);
  }

  /**
   * The service's own expiry test adds nothing to the library's except for
   * `exp` = 0, which the library reads as "no expiry" and the service rejects
   * at any instant after the epoch.
   */
  lemma ExtraExpiryCheck(c: Claims, now: int)
    requires ClaimIssues(c, now) == []
    ensures ExtraExpiryCheckFails(c, now) <==> "exp" in c && c["exp"] == JNumber(0) && now > 0
  {
  }

  /** A token the service signed validates, with its claims, exactly while `now` is before its non-zero `exp`. */
  lemma {:induction false} ValidateSigned(svc: JwtService, m: Members, now: int, exp: int)
    requires "exp" in ClaimsOf(m) && ClaimsOf(m)["exp"] == JNumber(exp) && exp != 0
    requires "nbf" !in ClaimsOf(m)
    ensures ValidateTokenString(svc, SignHS256(svc.secret, svc.hmac, m), now) == Ok(ClaimsOf(m)) <==> now < exp * NanosPerSecond
    ensures now >= exp * NanosPerSecond ==> ValidateTokenString(svc, SignHS256(svc.secret, svc.hmac, m), now) == Err(InvalidClaims([Expired]))
  {
    var c := ClaimsOf(m);
    var input := SigningInput(Header("HS256"), m);
    var p := Parsed(Token(Header("HS256"), m, svc.hmac("HS256", svc.secret, input)), input);
    assert Parse(SignHS256(svc.secret, svc.hmac, m)) == Some(p);
    assert NumericDate(c, "exp") == Ok(Some(exp));
    assert NumericDate(c, "nbf") == Ok(None);
    assert NotBeforeIssues(c, now) == [];
    assert ValidateTokenString(svc, SignHS256(svc.secret, svc.hmac, m), now) == ValidateParsed(svc, p, now);
    assert IsHmacAlg(p.token.header.alg);
    assert p.token.signature == svc.hmac(p.token.header.alg, svc.secret, p.signingInput);
    if now < exp * NanosPerSecond {
      assert ClaimIssues(c, now) == [];
    } else {
      assert ExpiryIssues(c, now) == [Expired];
      assert ClaimIssues(c, now) == [Expired] + [];
      assert ClaimIssues(c, now) == [Expired];
      assert ValidateParsed(svc, p, now) == Err(InvalidClaims([Expired]));
    }
  }

  /** What validation accepts is the claims the string carries, whatever the instant. */
  lemma AcceptedClaims(svc: JwtService, s: string, now: int)
    requires ValidateTokenString(svc, s, now).Ok?
    ensures Parse(s).Some? && ValidateTokenString(svc, s, now).value == ClaimsOf(Parse(s).value.token.members)
  {
  }

  /** A validated token whose `sub` is the canonical text of a user yields that user. */
  lemma ExtractFromValid(svc: JwtService, s: string, now: int, c: Claims, user: Uuids.Uuid)
    requires ValidateTokenString(svc, s, now) == Ok(c)
    requires "sub" in c && c["sub"] == JString(Uuids.ToString(user))
    ensures ExtractUserIdFromToken(svc, s, now) == Ok(user)
  {
    Uuids.ParseToString(user);
  }

  /** Until its `exp`, an access token yields back the user it was issued to, and it is not a refresh token; from then on it is refused. */
  lemma AccessTokenRoundTrip(svc: JwtService, user: Uuids.Uuid, issued: int, jti: Uuids.Uuid, now: int)
    requires UnixSeconds(issued + svc.accessExpiry) != 0
    ensures var exp := UnixSeconds(issued + svc.accessExpiry);
      var s := GenerateAccessToken(svc, user, issued, jti);
      && (now < exp * NanosPerSecond ==> ValidateTokenString(svc, s, now) == Ok(AccessClaims(user, issued, svc.accessExpiry, jti)))
      && (now < exp * NanosPerSecond ==> ExtractUserIdFromToken(svc, s, now) == Ok(user))
      && (now >= exp * NanosPerSecond ==> ExtractUserIdFromToken(svc, s, now) == Err(InvalidClaims([Expired])))
  {
    var m := AccessMembers(user, issued, svc.accessExpiry, jti);
    var c := AccessClaims(user, issued, svc.accessExpiry, jti);
    var exp := UnixSeconds(issued + svc.accessExpiry);
    assert "exp" in c && c["exp"] == JNumber(exp) && "nbf" !in c;
    assert "sub" in c && c["sub"] == JString(Uuids.ToString(user));
    ValidateSigned(svc, m, now, exp);
    if now < exp * NanosPerSecond {
      ExtractFromValid(svc, GenerateAccessToken(svc, user, issued, jti), now, c, user);
    }
  }

  /** Until its `exp`, a refresh token yields back its user and is recognised as a refresh token; from then on it is refused. */
  lemma RefreshTokenRoundTrip(svc: JwtService, user: Uuids.Uuid, issued: int, jti: Uuids.Uuid, now: int)
    requires UnixSeconds(issued + svc.refreshExpiry) != 0
    ensures var exp := UnixSeconds(issued + svc.refreshExpiry);
      var s := GenerateRefreshToken(svc, user, issued, jti);
      && (now < exp * NanosPerSecond ==> ValidateTokenString(svc, s, now) == Ok(RefreshClaims(user, issued, svc.refreshExpiry, jti)))
      && (now < exp * NanosPerSecond ==> ExtractUserIdFromToken(svc, s, now) == Ok(user))
      && (now >= exp * NanosPerSecond ==> ExtractUserIdFromToken(svc, s, now) == Err(InvalidClaims([Expired])))
  {
    var m := RefreshMembers(user, issued, svc.refreshExpiry, jti);
    var c := RefreshClaims(user, issued, svc.refreshExpiry, jti);
    var exp := UnixSeconds(issued + svc.refreshExpiry);
    assert "exp" in c && c["exp"] == JNumber(exp) && "nbf" !in c;
    assert "sub" in c && c["sub"] == JString(Uuids.ToString(user));
    ValidateSigned(svc, m, now, exp);
    if now < exp * NanosPerSecond {
      ExtractFromValid(svc, GenerateRefreshToken(svc, user, issued, jti), now, c, user);
    }
  }

  /** `IsRefreshToken` tells the two kinds apart. */
  lemma IsRefreshTokenKinds(user: Uuids.Uuid, now: int, expiry: int, jti: Uuids.Uuid)
    ensures IsRefreshToken(RefreshClaims(user, now, expiry, jti))
    ensures !IsRefreshToken(AccessClaims(user, now, expiry, jti))
  {
  }

  /** Tokens minted with distinct token ids are distinct strings. */
  lemma DistinctJtiDistinctTokens(svc: JwtService, user: Uuids.Uuid, issued: int, j1: Uuids.Uuid, j2: Uuids.Uuid)
    requires j1 != j2
    ensures GenerateRefreshToken(svc, user, issued, j1) != GenerateRefreshToken(svc, user, issued, j2)
    ensures GenerateAccessToken(svc, user, issued, j1) != GenerateAccessToken(svc, user, issued, j2)
  {
    if Uuids.ToString(j1) == Uuids.ToString(j2) {
      Uuids.ToStringInjective(j1, j2);
    }
    var r1, r2 := RefreshMembers(user, issued, svc.refreshExpiry, j1), RefreshMembers(user, issued, svc.refreshExpiry, j2);
    assert ClaimsOf(r1)["token"] != ClaimsOf(r2)["token"];
    var a1, a2 := AccessMembers(user, issued, svc.accessExpiry, j1), AccessMembers(user, issued, svc.accessExpiry, j2);
    assert ClaimsOf(a1)["token"] != ClaimsOf(a2)["token"];
  }

  /** An access token is never the same string as a refresh token. */
  lemma AccessIsNotRefresh(svc: JwtService, user: Uuids.Uuid, issued: int, j1: Uuids.Uuid, j2: Uuids.Uuid)
    ensures GenerateAccessToken(svc, user, issued, j1) != GenerateRefreshToken(svc, user, issued, j2)
  {
    var a := AccessMembers(user, issued, svc.accessExpiry, j1);
    var r := RefreshMembers(user, issued, svc.refreshExpiry, j2);
    assert ClaimsOf(a)["type"] != ClaimsOf(r)["type"];
  }
}
