/**
 * `AuthMiddleware` of internal/infrastructure/http/middleware/auth_middleware.go:
 * a bearer token that the token service accepts puts its user id into the
 * context under `UserIDKey`; anything else is answered 401 with the error's
 * text. A request is the `Authorization` header, the incoming context and
 * the instant it is served at.
 */
module AuthMiddleware {
  import opened Wrappers
  import opened Http
  import Bearer
  import Strs
  import Jwt
  import JwtCodec
  import Uuids

  /**
   * A missing header, a header without the "Bearer " scheme, and a token the
   * service refuses each give 401 with that error's text; a token it accepts
   * runs the next handler with the token's user under `UserIDKey`.
   */
  function AuthMiddleware(svc: Jwt.JwtService, header: string, ctx: Ctx, now: int): (o: Outcome)
    ensures header == "" ==> o == Reject(StatusUnauthorized, Text("missing Authorization header"))
    ensures header != "" && !Strs.HasPrefix(header, Bearer.Prefix) ==>
              o == Reject(StatusUnauthorized, Text("invalid authorization header format"))
    ensures Strs.HasPrefix(header, Bearer.Prefix) ==>
              var r := Jwt.ExtractUserIdFromToken(svc, header[|Bearer.Prefix|..], now);
              o == if r.Ok? then Next(ctx[UserIdKey := UserIdValue(r.value)])
                   else Reject(StatusUnauthorized, Text(r.error.Message()))
  {
    match Bearer.ExtractBearerToken(header)
    case Err(e) => Reject(StatusUnauthorized, Text(e.Message()))
    case Ok(t) =>
      match Jwt.ExtractUserIdFromToken(svc, t, now)
      case Err(e) => Reject(StatusUnauthorized, Text(e.Message()))
      case Ok(id) => Next(ctx[UserIdKey := UserIdValue(id)])
  }

  /** Whenever the gate lets a request through, the next handler finds the user of a token the service accepted. */
  lemma PassedMeansAuthenticated(svc: Jwt.JwtService, header: string, ctx: Ctx, now: int)
    requires AuthMiddleware(svc, header, ctx, now).Next?
    ensures exists t :: header == Bearer.Prefix + t && Jwt.ValidateTokenString(svc, t, now).Ok?
                        && UserIdFromContext(AuthMiddleware(svc, header, ctx, now).ctx)
                           == Some(Jwt.ExtractUserIdFromToken(svc, t, now).value)
  {
    var t := Bearer.ExtractBearerToken(header).value;
    assert header == Bearer.Prefix + t;
  }

  /**
   * The token kind is not examined: a live refresh token opens the gate
   * just as an access token does.
   */
  lemma RefreshTokenPasses(svc: Jwt.JwtService, user: Uuids.Uuid, issued: int, jti: Uuids.Uuid, ctx: Ctx, now: int)
    requires Jwt.UnixSeconds(issued + svc.refreshExpiry) != 0
    requires now < Jwt.UnixSeconds(issued + svc.refreshExpiry) * Jwt.NanosPerSecond
    ensures AuthMiddleware(svc, Bearer.Prefix + Jwt.GenerateRefreshToken(svc, user, issued, jti), ctx, now)
            == Next(ctx[UserIdKey := UserIdValue(user)])
  {
    Jwt.RefreshTokenRoundTrip(svc, user, issued, jti, now);
    Bearer.ExtractPrefixed(Jwt.GenerateRefreshToken(svc, user, issued, jti));
  }

  /** A live access token opens the gate with its user. */
  lemma AccessTokenPasses(svc: Jwt.JwtService, user: Uuids.Uuid, issued: int, jti: Uuids.Uuid, ctx: Ctx, now: int)
    requires Jwt.UnixSeconds(issued + svc.accessExpiry) != 0
    requires now < Jwt.UnixSeconds(issued + svc.accessExpiry) * Jwt.NanosPerSecond
    ensures AuthMiddleware(svc, Bearer.Prefix + Jwt.GenerateAccessToken(svc, user, issued, jti), ctx, now)
            == Next(ctx[UserIdKey := UserIdValue(user)])
  {
    Jwt.AccessTokenRoundTrip(svc, user, issued, jti, now);
    Bearer.ExtractPrefixed(Jwt.GenerateAccessToken(svc, user, issued, jti));
  }

  /** An access token past its `exp` is answered with the library's expiry text behind the service's prefix. */
  lemma ExpiredAccessTokenText(svc: Jwt.JwtService, user: Uuids.Uuid, issued: int, jti: Uuids.Uuid, ctx: Ctx, now: int)
    requires Jwt.UnixSeconds(issued + svc.accessExpiry) != 0
    requires now >= Jwt.UnixSeconds(issued + svc.accessExpiry) * Jwt.NanosPerSecond
    ensures AuthMiddleware(svc, Bearer.Prefix + Jwt.GenerateAccessToken(svc, user, issued, jti), ctx, now)
            == Reject(StatusUnauthorized, Text("invalid token: " + "token has invalid claims: " + "token is expired"))
  {
    var t := Jwt.GenerateAccessToken(svc, user, issued, jti);
    Jwt.AccessTokenRoundTrip(svc, user, issued, jti, now);
    Bearer.ExtractPrefixed(t);
    var e := Jwt.InvalidClaims([Jwt.Expired]);
    assert Jwt.IssueMessages(e.issues) == ["token is expired"];
    assert AuthMiddleware(svc, Bearer.Prefix + t, ctx, now) == Reject(StatusUnauthorized, Text(e.Message()));
  }

  /**
   * A token naming an algorithm the library knows but that is not HMAC (RS256,
   * "none", …) is refused by the key function, and the text names the algorithm.
   */
  lemma ForeignAlgorithmText(svc: Jwt.JwtService, t: JwtCodec.Token, ctx: Ctx, now: int)
    requires Jwt.IsRegisteredAlg(t.header.alg) && !Jwt.IsHmacAlg(t.header.alg)
    ensures AuthMiddleware(svc, Bearer.Prefix + JwtCodec.Serialize(t), ctx, now)
            == Reject(StatusUnauthorized,
                      Text("invalid token: " + "token is unverifiable: error while executing keyfunc: unexpected signing method: "
                           + t.header.alg))
  {
    var s := JwtCodec.Serialize(t);
    Jwt.NonHmacRejected(svc, t, now);
    Bearer.ExtractPrefixed(s);
    var e := Jwt.UnexpectedSigningMethod(t.header.alg);
    assert AuthMiddleware(svc, Bearer.Prefix + s, ctx, now) == Reject(StatusUnauthorized, Text(e.Message()));
  }
}
