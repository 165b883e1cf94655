/**
 * `GenerateJWT` of internal/infrastructure/auth/jwt.go: a one-hour token in
 * the shape Supabase issues (`sub`, `aud`, `role`, `exp`, `iat`), signed
 * with HS256 under the given secret. Both readings of the clock are the
 * same instant `now`.
 */
module JwtGenerate {
  import opened Wrappers
  import opened JwtCodec
  import opened Jwt
  import Uuids

  /** `time.Hour` in nanoseconds. */
  const Hour: int := 3600 * NanosPerSecond

  /** The `jwt.MapClaims` literal of `GenerateJWT`. */
  function GenerateJwtClaims(user: Uuids.Uuid, now: int): Claims
  {
    map["sub" := JString(Uuids.ToString(user)),
        "aud" := JString(Authenticated),
        "role" := JString(Authenticated),
        "exp" := JNumber(UnixSeconds(now + Hour)),
        "iat" := JNumber(UnixSeconds(now))]
  }

  /** The members `encoding/json` writes for `GenerateJwtClaims`, in key order. */
  function GenerateJwtMembers(user: Uuids.Uuid, now: int): (m: Members)
    ensures ClaimsOf(m) == GenerateJwtClaims(user, now)
  {
    var m := [ ("aud", JString(Authenticated)),
               ("exp", JNumber(UnixSeconds(now + Hour))),
               ("iat", JNumber(UnixSeconds(now))),
               ("role", JString(Authenticated)),
               ("sub", JString(Uuids.ToString(user))) ];
    assert m == [] + [m[0]] + [m[1]] + [m[2]] + [m[3]] + [m[4]];
    ClaimsOfSnoc([], m[0].0, m[0].1);
    ClaimsOfSnoc([] + [m[0]], m[1].0, m[1].1);
    ClaimsOfSnoc([] + [m[0]] + [m[1]], m[2].0, m[2].1);
    ClaimsOfSnoc([] + [m[0]] + [m[1]] + [m[2]], m[3].0, m[3].1);
    ClaimsOfSnoc([] + [m[0]] + [m[1]] + [m[2]] + [m[3]], m[4].0, m[4].1);
    m
  }

  /** `GenerateJWT(secret, userID)` at instant `now`; HS256 signing with a byte key cannot fail. */
  function GenerateJwt(secret: string, hmac: Mac, user: Uuids.Uuid, now: int): string
  {
    SignHS256(secret, hmac, GenerateJwtMembers(user, now))
  }

  /**
   * The claims name the user, carry the Supabase audience and role, expire
   * exactly 3600 seconds after they were issued, and have no `type`, so they
   * are never taken for a refresh token.
   */
  lemma GenerateJwtClaimsShape(user: Uuids.Uuid, now: int)
    ensures var c := GenerateJwtClaims(user, now);
      && c.Keys == {"sub", "aud", "role", "exp", "iat"}
      && c["sub"] == JString(Uuids.ToString(user))
      && c["aud"] == c["role"] == JString(Authenticated)
      && c["exp"].JNumber? && c["iat"].JNumber? && c["exp"].n - c["iat"].n == 3600
      && "type" !in c && !IsRefreshToken(c)
  {
    UnixSecondsShift(now, 3600);
  }

  /** The token is an HS256 token over the claims, signed with `secret`. */
  lemma GenerateJwtSigned(secret: string, hmac: Mac, user: Uuids.Uuid, now: int)
    ensures var m := GenerateJwtMembers(user, now);
      var input := SigningInput(Header("HS256"), m);
      Parse(GenerateJwt(secret, hmac, user, now)) == Some(Parsed(Token(Header("HS256"), m, hmac("HS256", secret, input)), input))
  {
  }

  /**
   * A service holding the same secret accepts the token for its hour and
   * reads the user back from it.
   */
  lemma GenerateJwtAccepted(svc: JwtService, user: Uuids.Uuid, issued: int, now: int)
    requires issued >= 0
    requires now < UnixSeconds(issued + Hour) * NanosPerSecond
    ensures ValidateTokenString(svc, GenerateJwt(svc.secret, svc.hmac, user, issued), now) == Ok(GenerateJwtClaims(user, issued))
    ensures ExtractUserIdFromToken(svc, GenerateJwt(svc.secret, svc.hmac, user, issued), now) == Ok(user)
  {
    UnixSecondsShift(issued, 3600);
    var m := GenerateJwtMembers(user, issued);
    var c := GenerateJwtClaims(user, issued);
    var exp := UnixSeconds(issued + Hour);
    assert "exp" in c && c["exp"] == JNumber(exp) && "nbf" !in c;
    assert exp != 0;
    var s := GenerateJwt(svc.secret, svc.hmac, user, issued);
    assert ValidateTokenString(svc, s, now) == Ok(c) by {
      ValidateSigned(svc, m, now, exp);
    }
    assert "sub" in c && c["sub"] == JString(Uuids.ToString(user));
    ExtractFromValid(svc, s, now, c, user);
  }

  /** From the expiry instant on, the token is refused as expired. */
  lemma GenerateJwtExpires(svc: JwtService, user: Uuids.Uuid, issued: int, now: int)
    requires issued >= 0
    requires now >= UnixSeconds(issued + Hour) * NanosPerSecond
    ensures ExtractUserIdFromToken(svc, GenerateJwt(svc.secret, svc.hmac, user, issued), now) == Err(InvalidClaims([Expired]))
  {
    UnixSecondsShift(issued, 3600);
    var m := GenerateJwtMembers(user, issued);
    var c := GenerateJwtClaims(user, issued);
    var exp := UnixSeconds(issued + Hour);
    assert "exp" in c && c["exp"] == JNumber(exp) && "nbf" !in c;
    assert exp != 0;
    ValidateSigned(svc, m, now, exp);
  }
}
