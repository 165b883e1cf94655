/**
 * Issuing and checking one-time codes: `GenerateOtpUseCase` of
 * internal/usecases/generate_otp.go and `ValidateOtpUseCase` of
 * internal/usecases/validate_otp.go, over the OTP table of the auth
 * repository. `AuthService` (internal/services/auth_service.go) runs the
 * same two procedures, `IssueOtp` and `CheckOtp`.
 *
 * `now` is the instant of the request, used both for `time.Now()` and for
 * the database's `NOW()`; `read` is the outcome of `rand.Read`; the
 * `…Fault` flags say whether a statement fails.
 */
module OtpUseCases {
  import opened Wrappers
  import opened AuthRepository
  import OtpCodes
  import Config
  import Uuids

  /** An issued code is valid for five minutes. */
  const OtpValidity: int := 5 * Config.Minute

  /** Issue a code for `user` and store it with its expiry; a failed insert yields "" and the error. */
  method IssueOtp(repo: AuthRepository, user: Uuids.Uuid, now: int, read: Option<byte>, dbError: bool)
    returns (code: string, err: Option<StoreError>)
    modifies repo
    ensures dbError ==> code == "" && err == Some(Fault) && repo.otps == old(repo.otps)
    ensures !dbError ==> code == OtpCodes.IssuedCode(read) && err == None
                         && repo.otps == old(repo.otps) + [OtpRow(user, code, now + OtpValidity, false)]
    ensures repo.refreshTokens == old(repo.refreshTokens)
  {
    var c := OtpCodes.IssuedCode(read);
    var expiresAt := now + OtpValidity;
    err := repo.SaveOtp(user, c, expiresAt, dbError);
    if err.Some? {
      return "", err;
    }
    code := c;
  }

  /**
   * Check a code: the magic code passes untouched; otherwise a valid code
   * passes and is marked used (a failure to mark it is ignored), and
   * anything else fails with the lookup's error, if there was one.
   */
  method CheckOtp(repo: AuthRepository, magicOtp: string, user: Uuids.Uuid, code: string, now: int,
                  lookupFault: bool, invalidateFault: bool)
    returns (ok: bool, err: Option<StoreError>)
    modifies repo
    ensures code == magicOtp ==> ok && err == None && repo.otps == old(repo.otps)
    ensures code != magicOtp && lookupFault ==> !ok && err == Some(Fault) && repo.otps == old(repo.otps)
    ensures code != magicOtp && !lookupFault ==>
      && ok == HasValidOtp(old(repo.otps), user, code, now)
      && err == None
      && repo.otps == (if ok && !invalidateFault then MarkUsed(old(repo.otps), user, code) else old(repo.otps))
    ensures repo.refreshTokens == old(repo.refreshTokens)
  {
    if code == magicOtp {
      return true, None;
    }
    var valid;
    valid, err := repo.GetValidOtp(user, code, now, lookupFault);
    if err.Some? || !valid {
      return false, err;
    }
    var _ := repo.InvalidateOtp(user, code, invalidateFault);
    return true, None;
  }

  class GenerateOtpUseCase {
    const authRepo: AuthRepository

    constructor(authRepo: AuthRepository)
      ensures this.authRepo == authRepo
    {
      this.authRepo := authRepo;
    }

    /** `Execute`: the code returned is the code stored, with expiry five minutes after `now`. */
    method Execute(user: Uuids.Uuid, now: int, read: Option<byte>, dbError: bool)
      returns (code: string, err: Option<StoreError>)
      modifies authRepo
      ensures dbError ==> code == "" && err == Some(Fault) && authRepo.otps == old(authRepo.otps)
      ensures !dbError ==> code == OtpCodes.IssuedCode(read) && err == None
                           && authRepo.otps == old(authRepo.otps) + [OtpRow(user, code, now + OtpValidity, false)]
      ensures authRepo.refreshTokens == old(authRepo.refreshTokens)
    {
      code, err := IssueOtp(authRepo, user, now, read, dbError);
    }
  }

  class ValidateOtpUseCase {
    const authRepo: AuthRepository
    const config: Config.Config

    constructor(authRepo: AuthRepository, config: Config.Config)
      ensures this.authRepo == authRepo && this.config == config
    {
      this.authRepo := authRepo;
      this.config := config;
    }

    /** `Execute`: `CheckOtp` with the configured magic code. */
    method Execute(user: Uuids.Uuid, code: string, now: int, lookupFault: bool, invalidateFault: bool)
      returns (ok: bool, err: Option<StoreError>)
      modifies authRepo
      ensures code == config.magicOtp ==> ok && err == None && authRepo.otps == old(authRepo.otps)
      ensures code != config.magicOtp && lookupFault ==> !ok && err == Some(Fault) && authRepo.otps == old(authRepo.otps)
      ensures code != config.magicOtp && !lookupFault ==>
        && ok == HasValidOtp(old(authRepo.otps), user, code, now)
        && err == None
        && authRepo.otps == (if ok && !invalidateFault then MarkUsed(old(authRepo.otps), user, code) else old(authRepo.otps))
      ensures authRepo.refreshTokens == old(authRepo.refreshTokens)
    {
      ok, err := CheckOtp(authRepo, config.magicOtp, user, code, now, lookupFault, invalidateFault);
    }
  }

  /**
   * A code is good once: after it has passed, presenting it again for the
   * same user fails, even at the same instant, unless it is the magic code
   * or the marking failed.
   */
  method SingleUse(repo: AuthRepository, magicOtp: string, user: Uuids.Uuid, code: string, now: int, later: int)
    returns (first: bool, second: bool)
    requires code != magicOtp
    modifies repo
    ensures first == HasValidOtp(old(repo.otps), user, code, now)
    ensures first ==> !second
  {
    var e1, e2;
    first, e1 := CheckOtp(repo, magicOtp, user, code, now, false, false);
    MarkUsedInvalidates(old(repo.otps), user, code, later);
    second, e2 := CheckOtp(repo, magicOtp, user, code, later, false, false);
  }

  /** A freshly issued code passes its check within its five minutes. */
  method IssuedThenChecked(repo: AuthRepository, magicOtp: string, user: Uuids.Uuid, now: int, at: int, read: Option<byte>)
    returns (ok: bool)
    requires now <= at < now + OtpValidity
    modifies repo
    ensures ok
  {
    var code, e1 := IssueOtp(repo, user, now, read, false);
    SavedOtpIsValid(old(repo.otps), user, code, now + OtpValidity, at);
    var e2;
    ok, e2 := CheckOtp(repo, magicOtp, user, code, at, false, false);
  }
}
