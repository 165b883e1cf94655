/**
 * `AuthService` of internal/services/auth_service.go: the OTP procedures,
 * opaque refresh tokens made of random bytes, and thin delegations to the
 * auth repository. `bytes` is what `rand.Read` put into the buffer, or None
 * when the read failed; `now` is the request's instant.
 */
module AuthService {
  import opened Wrappers
  import opened AuthRepository
  import OtpUseCases
  import OtpCodes
  import Config
  import Hex
  import Numerals
  import Uuids

  /** Opaque refresh tokens are valid for thirty days. */
  const RefreshValidity: int := 30 * 24 * Config.Hour

  datatype ServiceError = StoreFailure(store: StoreError) | RandomFailure | InvalidOrExpiredRefreshToken
  {
    /**
     * The error's fixed text; a store failure and a failed read carry the
     * database's and `crypto/rand`'s own errors, which are not modelled.
     */
    function Message(): (m: Option<string>)
      ensures InvalidOrExpiredRefreshToken? <==> m == Some("invalid or expired refresh token")
      ensures StoreFailure? || RandomFailure? <==> m.None?
    {
      match this
      case InvalidOrExpiredRefreshToken => Some("invalid or expired refresh token")
      case _ => None
    }
  }

  /** `generateSecureToken(length)`: the buffer's bytes in lower-case hex, two characters per byte. */
  function GenerateSecureToken(length: nat, bytes: Option<seq<byte>>): (r: Result<string, ServiceError>)
    requires bytes.Some? ==> |bytes.value| == length
    ensures bytes.None? <==> r == Err(RandomFailure)
    ensures r.Ok? ==> |r.value| == 2 * length
    ensures r.Ok? ==> forall i :: 0 <= i < |r.value| ==> Numerals.IsLowerHexDigit(r.value[i])
    ensures r.Ok? ==> Hex.Decode(r.value) == bytes
  {
    match bytes
    case None => Err(RandomFailure)
    case Some(bs) => Hex.DecodeEncode(bs); Ok(Hex.Encode(bs))
  }

  /** Distinct buffers give distinct tokens. */
  lemma SecureTokenInjective(length: nat, a: seq<byte>, b: seq<byte>)
    requires |a| == length && |b| == length && a != b
    ensures GenerateSecureToken(length, Some(a)) != GenerateSecureToken(length, Some(b))
  {
    Hex.DecodeEncode(a);
    Hex.DecodeEncode(b);
  }

  class AuthService {
    const authRepo: AuthRepository
    const cfg: Config.Config

    constructor(authRepo: AuthRepository, cfg: Config.Config)
      ensures this.authRepo == authRepo && this.cfg == cfg
    {
      this.authRepo := authRepo;
      this.cfg := cfg;
    }

    /** `GenerateOTP`: the code returned is the code stored, valid for five minutes. */
    method GenerateOtp(user: Uuids.Uuid, now: int, read: Option<byte>, dbError: bool)
      returns (code: string, err: Option<StoreError>)
      modifies authRepo
      ensures dbError ==> code == "" && err == Some(Fault) && authRepo.otps == old(authRepo.otps)
      ensures !dbError ==> code == OtpCodes.IssuedCode(read) && err == None
                           && authRepo.otps == old(authRepo.otps) + [OtpRow(user, code, now + OtpUseCases.OtpValidity, false)]
      ensures authRepo.refreshTokens == old(authRepo.refreshTokens)
    {
      code, err := OtpUseCases.IssueOtp(authRepo, user, now, read, dbError);
    }

    /** `ValidateOTP`: the magic code short-circuits; otherwise a valid code passes once. */
    method ValidateOtp(user: Uuids.Uuid, code: string, now: int, lookupFault: bool, invalidateFault: bool)
      returns (ok: bool, err: Option<StoreError>)
      modifies authRepo
      ensures code == cfg.magicOtp ==> ok && err == None && authRepo.otps == old(authRepo.otps)
      ensures code != cfg.magicOtp && lookupFault ==> !ok && err == Some(Fault) && authRepo.otps == old(authRepo.otps)
      ensures code != cfg.magicOtp && !lookupFault ==>
        && ok == HasValidOtp(old(authRepo.otps), user, code, now)
        && err == None
        && authRepo.otps == (if ok && !invalidateFault then MarkUsed(old(authRepo.otps), user, code) else old(authRepo.otps))
      ensures authRepo.refreshTokens == old(authRepo.refreshTokens)
    {
      ok, err := OtpUseCases.CheckOtp(authRepo, cfg.magicOtp, user, code, now, lookupFault, invalidateFault);
    }

    /** `GenerateRefreshToken`: 32 random bytes in hex, stored for the user with a thirty-day expiry. */
    method GenerateRefreshToken(user: Uuids.Uuid, now: int, bytes: Option<seq<byte>>, dbError: bool)
      returns (token: string, err: Option<ServiceError>)
      requires bytes.Some? ==> |bytes.value| == 32
      modifies authRepo
      ensures bytes.None? ==> token == "" && err == Some(RandomFailure) && authRepo.refreshTokens == old(authRepo.refreshTokens)
      ensures bytes.Some? && dbError ==> token == "" && err == Some(StoreFailure(Fault))
                                         && authRepo.refreshTokens == old(authRepo.refreshTokens)
      ensures bytes.Some? && !dbError ==>
        && token == Hex.Encode(bytes.value) && |token| == 64 && err == None
        && authRepo.refreshTokens == old(authRepo.refreshTokens)[user := RefreshRow(token, now + RefreshValidity)]
      ensures authRepo.otps == old(authRepo.otps)
    {
      if bytes.None? {
        return "", Some(RandomFailure);
      }
      var refreshToken := Hex.Encode(bytes.value);
      var expiresAt := now + RefreshValidity;
      var e := authRepo.SaveRefreshToken(user, refreshToken, expiresAt, dbError);
      if e.Some? {
        return "", Some(StoreFailure(e.value));
      }
      return refreshToken, None;
    }

    /** `ValidateRefreshToken`: the user holding the token; "not found" becomes the service's own error, other errors pass. */
    method ValidateRefreshToken(token: string, now: int, dbError: bool) returns (r: Result<Uuids.Uuid, ServiceError>)
      ensures dbError ==> r == Err(StoreFailure(Fault))
      ensures !dbError ==> (r.Ok? <==> exists u :: Holds(authRepo.refreshTokens, u, token, now))
      ensures !dbError && r.Ok? ==> Holds(authRepo.refreshTokens, r.value, token, now)
      ensures !dbError && r.Err? ==> r.error == InvalidOrExpiredRefreshToken
    {
      var found := authRepo.GetUserIdByRefreshToken(token, now, dbError);
      match found
      case Err(e) =>
        if e == NotFound {
          return Err(InvalidOrExpiredRefreshToken);
        }
        return Err(StoreFailure(e));
      case Ok(u) =>
        return Ok(u);
    }

    /** `RotateRefreshToken`: a fresh 32-byte token replaces whatever the user held. */
    method RotateRefreshToken(user: Uuids.Uuid, now: int, bytes: Option<seq<byte>>, dbError: bool)
      returns (token: string, err: Option<ServiceError>)
      requires bytes.Some? ==> |bytes.value| == 32
      modifies authRepo
      ensures bytes.None? ==> token == "" && err == Some(RandomFailure) && authRepo.refreshTokens == old(authRepo.refreshTokens)
      ensures bytes.Some? && dbError ==> token == "" && err == Some(StoreFailure(Fault))
                                         && authRepo.refreshTokens == old(authRepo.refreshTokens)
      ensures bytes.Some? && !dbError ==>
        && token == GenerateSecureToken(32, bytes).value && err == None
        && authRepo.refreshTokens == old(authRepo.refreshTokens)[user := RefreshRow(token, now + RefreshValidity)]
      ensures authRepo.otps == old(authRepo.otps)
    {
      var generated := GenerateSecureToken(32, bytes);
      if generated.Err? {
        return "", Some(generated.error);
      }
      var newToken := generated.value;
      var expiresAt := now + RefreshValidity;
      var e := authRepo.SaveRefreshToken(user, newToken, expiresAt, dbError);
      if e.Some? {
        return "", Some(StoreFailure(e.value));
      }
      return newToken, None;
    }

    method SaveRefreshToken(user: Uuids.Uuid, token: string, expiresAt: int, dbError: bool) returns (err: Option<StoreError>)
      modifies authRepo
      ensures dbError ==> err == Some(Fault) && authRepo.refreshTokens == old(authRepo.refreshTokens)
      ensures !dbError ==> err == None && authRepo.refreshTokens == old(authRepo.refreshTokens)[user := RefreshRow(token, expiresAt)]
      ensures authRepo.otps == old(authRepo.otps)
    {
      err := authRepo.SaveRefreshToken(user, token, expiresAt, dbError);
    }

    method GetRefreshToken(user: Uuids.Uuid, now: int, dbError: bool) returns (r: Result<RefreshRow, StoreError>)
      ensures dbError ==> r == Err(Fault)
      ensures !dbError ==> r == LiveRefreshToken(authRepo.refreshTokens, user, now)
    {
      r := authRepo.GetRefreshToken(user, now, dbError);
    }

    method DeleteRefreshToken(user: Uuids.Uuid, dbError: bool) returns (err: Option<StoreError>)
      modifies authRepo
      ensures dbError ==> err == Some(Fault) && authRepo.refreshTokens == old(authRepo.refreshTokens)
      ensures !dbError ==> err == None && authRepo.refreshTokens == old(authRepo.refreshTokens) - {user}
      ensures authRepo.otps == old(authRepo.otps)
    {
      err := authRepo.DeleteRefreshToken(user, dbError);
    }
  }

  /** A rotated token is what `ValidateRefreshToken` then resolves to the user, while it lasts. */
  method RotateThenValidate(svc: AuthService, user: Uuids.Uuid, now: int, at: int, bytes: seq<byte>)
    returns (r: Result<Uuids.Uuid, ServiceError>)
    requires |bytes| == 32
    requires now <= at < now + RefreshValidity
    modifies svc.authRepo
    ensures r.Ok?
  {
    var token, err := svc.RotateRefreshToken(user, now, Some(bytes), false);
    assert Holds(svc.authRepo.refreshTokens, user, token, at);
    r := svc.ValidateRefreshToken(token, at, false);
  }
}
