/**
 * `AuthHandler` of internal/infrastructure/http/handlers/auth_handler.go:
 * the decision logic of the six endpoints and what each writes to the
 * refresh-token table, the refresh-session state machine.
 *
 * A request is its decoded body (None when the JSON does not decode) or
 * its context; `now` is the request's instant, read for every `time.Now()`
 * and for the database's `NOW()`; `jtiAccess` and `jtiRefresh` are the
 * `uuid.New()` of the two tokens a request mints; the `…Fault` flags say
 * whether a repository call fails. The users table that `GetByMobile` and
 * `GetByID` read is the field `users`.
 */
module AuthHandler {
  import opened Wrappers
  import opened AuthRepository
  import opened Http
  import Jwt
  import JwtCodec
  import Users
  import Uuids
  import OtpUseCases
  import OtpCodes

  datatype SendOtpRequest = SendOtpRequest(mobile: string)
  datatype VerifyOtpRequest = VerifyOtpRequest(mobile: string, otp: string)
  datatype RefreshTokenRequest = RefreshTokenRequest(refreshToken: string)

  /** `dto.LoggedInUserResponse`. */
  datatype LoggedInUser = LoggedInUser(id: Uuids.Uuid, name: string, mobile: string)

  /** What a handler writes: an error status with its text, or a 200 response body. */
  datatype Response =
    | Failure(status: int, text: string)
    | OtpSent(message: string)
    | Authenticated(accessToken: string, refreshToken: string, user: LoggedInUser)
    | TokenPair(accessToken: string, refreshToken: string)
    | LoggedOut(message: string)
    | Profile(user: LoggedInUser)
  {
    function Status(): int
    {
      if Failure? then status else StatusOK
    }
  }

  function Summary(u: Users.User): LoggedInUser
  {
    LoggedInUser(u.id, u.name, u.mobile)
  }

  /** The column `getUserByField` filters on, with the value compared against it. */
  datatype UserField = IdField(id: Uuids.Uuid) | EmailField(email: string) | MobileField(mobile: string)

  predicate Matches(u: Users.User, f: UserField)
  {
    match f
    case IdField(id) => u.id == id
    case EmailField(email) => u.email == email
    case MobileField(mobile) => u.mobile == mobile
  }

  /** `getUserByField`: the first user whose column holds the value, as `GetByID`, `GetByEmail` and `GetByMobile` use it. */
  function ByField(users: seq<Users.User>, f: UserField): (r: Option<Users.User>)
    ensures r.Some? ==> r.value in users && Matches(r.value, f)
    ensures r.None? <==> forall i :: 0 <= i < |users| ==> !Matches(users[i], f)
  {
    if users == [] then None
    else if Matches(users[0], f) then Some(users[0])
    else ByField(users[1..], f)
  }

  /** `time.Now().Add(RefreshExpiry())`: when a refresh token minted at `now` stops being stored. */
  function RefreshExpiresAt(jwt: Jwt.JwtService, now: int): int
  {
    now + jwt.RefreshExpiry()
  }

  /** Whether `ValidateOTPUseCase` lets `code` through: the magic code always, otherwise a live unused row when the lookup works. */
  function OtpPasses(magicOtp: string, otps: seq<OtpRow>, user: Uuids.Uuid, code: string, now: int, lookupFault: bool): bool
  {
    code == magicOtp || (!lookupFault && HasValidOtp(otps, user, code, now))
  }

  /** The OTP rows after a code passed: marked used, unless it was the magic code or the marking failed. */
  function OtpsAfterPass(magicOtp: string, otps: seq<OtpRow>, user: Uuids.Uuid, code: string, invalidateFault: bool): seq<OtpRow>
  {
    if code == magicOtp || invalidateFault then otps else MarkUsed(otps, user, code)
  }

  /** The six checks `RefreshToken` runs before it writes: the user they admit, or the response that refuses. */
  datatype RefreshCheck = Passed(user: Uuids.Uuid) | Rejected(status: int, text: string)

  function CheckRefresh(jwt: Jwt.JwtService, table: RefreshTable, req: Option<RefreshTokenRequest>, now: int, getFault: bool): RefreshCheck
  {
    if req.None? || req.value.refreshToken == "" then Rejected(StatusBadRequest, "Missing refresh token")
    else CheckPresented(jwt, table, req.value.refreshToken, now, getFault)
  }

  /** The checks on a presented token: it validates, is a refresh token, names a user, and is that user's stored token. */
  function CheckPresented(jwt: Jwt.JwtService, table: RefreshTable, t: string, now: int, getFault: bool): RefreshCheck
  {
    match Jwt.ValidateTokenString(jwt, t, now)
    case Err(_) => Rejected(StatusUnauthorized, "Invalid refresh token")
    case Ok(claims) =>
      if !Jwt.IsRefreshToken(claims) then Rejected(StatusUnauthorized, "Not a refresh token")
      else
        match Jwt.ExtractUserIdFromToken(jwt, t, now)
        case Err(_) => Rejected(StatusUnauthorized, "Invalid token claims")
        case Ok(u) => CheckStored(table, u, t, now, getFault)
  }

  /** The checks against the row `GetRefreshToken` returns for `u`. */
  function CheckStored(table: RefreshTable, u: Uuids.Uuid, t: string, now: int, getFault: bool): RefreshCheck
  {
    var stored := if getFault then Err(Fault) else LiveRefreshToken(table, u, now);
    if stored.Err? then Rejected(StatusUnauthorized, "Refresh token not found")
    else if stored.value.token != t then Rejected(StatusUnauthorized, "Refresh token mismatch")
    else if now > stored.value.expiresAt then Rejected(StatusUnauthorized, "Refresh token expired")
    else Passed(u)
  }

  /**
   * What passing the checks means: a non-empty token that validates as a
   * refresh token of user `u`, and is the very token stored for `u`, live at `now`.
   */
  lemma CheckRefreshPassed(jwt: Jwt.JwtService, table: RefreshTable, req: Option<RefreshTokenRequest>, now: int, getFault: bool)
    requires CheckRefresh(jwt, table, req, now, getFault).Passed?
    ensures req.Some? && req.value.refreshToken != "" && !getFault
    ensures var t := req.value.refreshToken;
      var u := CheckRefresh(jwt, table, req, now, getFault).user;
      && Jwt.ValidateTokenString(jwt, t, now).Ok?
      && Jwt.IsRefreshToken(Jwt.ValidateTokenString(jwt, t, now).value)
      && Jwt.ExtractUserIdFromToken(jwt, t, now) == Ok(u)
      && Holds(table, u, t, now)
  {
  }

  /**
   * The "Refresh token expired" branch never answers: the row came from
   * `GetRefreshToken`, which only returns rows that expire after `now`.
   */
  lemma ExpiredBranchUnreachable(jwt: Jwt.JwtService, table: RefreshTable, req: Option<RefreshTokenRequest>, now: int, getFault: bool)
    ensures CheckRefresh(jwt, table, req, now, getFault) != Rejected(StatusUnauthorized, "Refresh token expired")
  {
  }

  /** Every refusal is a 400 for a missing token or a 401. */
  lemma CheckRefreshStatuses(jwt: Jwt.JwtService, table: RefreshTable, req: Option<RefreshTokenRequest>, now: int, getFault: bool)
    ensures var r := CheckRefresh(jwt, table, req, now, getFault);
      r.Rejected? ==> (r.status == StatusBadRequest <==> req.None? || req.value.refreshToken == "")
                      && (r.status == StatusBadRequest || r.status == StatusUnauthorized)
  {
    if req.Some? && req.value.refreshToken != "" {
      PresentedRejectsUnauthorized(jwt, table, req.value.refreshToken, now, getFault);
    }
  }

  lemma PresentedRejectsUnauthorized(jwt: Jwt.JwtService, table: RefreshTable, t: string, now: int, getFault: bool)
    ensures var r := CheckPresented(jwt, table, t, now, getFault);
      r.Rejected? ==> r.status == StatusUnauthorized
  {
  }

  /** A refresh token in nanoseconds stays stored until at least the second its `exp` names. */
  lemma UnixSecondsBelow(t: int)
    ensures Jwt.UnixSeconds(t) * Jwt.NanosPerSecond <= t
  {
  }

  /**
   * The refresh token a sign-in stored for `u` at `issued` is accepted, for
   * `u`, at every instant before its `exp`.
   */
  lemma StoredTokenRefreshes(jwt: Jwt.JwtService, table: RefreshTable, u: Uuids.Uuid, issued: int, jti: Uuids.Uuid, now: int)
    requires u in table
    requires table[u] == RefreshRow(Jwt.GenerateRefreshToken(jwt, u, issued, jti), RefreshExpiresAt(jwt, issued))
    requires Jwt.UnixSeconds(issued + jwt.refreshExpiry) != 0
    requires now < Jwt.UnixSeconds(issued + jwt.refreshExpiry) * Jwt.NanosPerSecond
    ensures CheckRefresh(jwt, table, Some(RefreshTokenRequest(table[u].token)), now, false) == Passed(u)
  {
    var t := table[u].token;
    Jwt.RefreshTokenRoundTrip(jwt, u, issued, jti, now);
    Jwt.IsRefreshTokenKinds(u, issued, jwt.refreshExpiry, jti);
    UnixSecondsBelow(issued + jwt.refreshExpiry);
    NonEmptyToken(jwt, t, now);
  }

  /** Two validations of one string at different instants that both succeed yield the same claims. */
  lemma ClaimsTimeless(jwt: Jwt.JwtService, t: string, now: int, later: int)
    requires Jwt.ValidateTokenString(jwt, t, now).Ok? && Jwt.ValidateTokenString(jwt, t, later).Ok?
    ensures Jwt.ValidateTokenString(jwt, t, now).value == Jwt.ValidateTokenString(jwt, t, later).value
  {
    Jwt.AcceptedClaims(jwt, t, now);
    Jwt.AcceptedClaims(jwt, t, later);
  }

  /**
   * Once another token is stored for `u`, a token of `u` is refused with a
   * 401, and while the new row is live and the token still validates, the
   * refusal is "Refresh token mismatch".
   */
  lemma ReplacedTokenRejected(jwt: Jwt.JwtService, table: RefreshTable, u: Uuids.Uuid, t: string, row: RefreshRow, now: int, getFault: bool)
    requires Jwt.ExtractUserIdFromToken(jwt, t, now) == Ok(u)
    requires row.token != t
    ensures var r := CheckRefresh(jwt, table[u := row], Some(RefreshTokenRequest(t)), now, getFault);
      && r.Rejected? && r.status == StatusUnauthorized
      && (Jwt.IsRefreshToken(Jwt.ValidateTokenString(jwt, t, now).value) && !getFault && now < row.expiresAt ==>
            r == Rejected(StatusUnauthorized, "Refresh token mismatch"))
  {
    var rotated := table[u := row];
    NonEmptyToken(jwt, t, now);
    assert CheckRefresh(jwt, rotated, Some(RefreshTokenRequest(t)), now, getFault) == CheckPresented(jwt, rotated, t, now, getFault);
    var claims := Jwt.ValidateTokenString(jwt, t, now);
    if Jwt.IsRefreshToken(claims.value) {
      assert CheckPresented(jwt, rotated, t, now, getFault) == CheckStored(rotated, u, t, now, getFault);
    }
  }

  /** After `Logout` removed the row of `u`, no token of `u` passes; a valid refresh token of `u` is "not found". */
  lemma LoggedOutTokenRejected(jwt: Jwt.JwtService, table: RefreshTable, u: Uuids.Uuid, t: string, now: int, getFault: bool)
    requires Jwt.ExtractUserIdFromToken(jwt, t, now) == Ok(u)
    ensures var r := CheckRefresh(jwt, table - {u}, Some(RefreshTokenRequest(t)), now, getFault);
      && r.Rejected? && r.status == StatusUnauthorized
      && (Jwt.IsRefreshToken(Jwt.ValidateTokenString(jwt, t, now).value) ==> r == Rejected(StatusUnauthorized, "Refresh token not found"))
  {
    var removed := table - {u};
    NonEmptyToken(jwt, t, now);
    assert CheckRefresh(jwt, removed, Some(RefreshTokenRequest(t)), now, getFault) == CheckPresented(jwt, removed, t, now, getFault);
    var claims := Jwt.ValidateTokenString(jwt, t, now);
    if Jwt.IsRefreshToken(claims.value) {
      assert CheckPresented(jwt, removed, t, now, getFault) == CheckStored(removed, u, t, now, getFault);
    }
  }

  /** A string that validates is not empty. */
  lemma NonEmptyToken(jwt: Jwt.JwtService, t: string, now: int)
    requires Jwt.ValidateTokenString(jwt, t, now).Ok?
    ensures t != ""
  {
    assert JwtCodec.Parse(t).Some?;
  }

  /** A validated token whose `token` claim is not `jti` is not the refresh token minted with `jti`. */
  lemma FreshTokenDiffers(jwt: Jwt.JwtService, t: string, now: int, u: Uuids.Uuid, issued: int, jti: Uuids.Uuid)
    requires Jwt.ValidateTokenString(jwt, t, now).Ok?
    requires var c := Jwt.ValidateTokenString(jwt, t, now).value;
      "token" in c && c["token"] != JwtCodec.JString(Uuids.ToString(jti))
    ensures t != Jwt.GenerateRefreshToken(jwt, u, issued, jti)
  {
    var m := Jwt.RefreshMembers(u, issued, jwt.refreshExpiry, jti);
    var input := JwtCodec.SigningInput(JwtCodec.Header("HS256"), m);
    var token := JwtCodec.Token(JwtCodec.Header("HS256"), m, jwt.hmac("HS256", jwt.secret, input));
    if t == Jwt.GenerateRefreshToken(jwt, u, issued, jti) {
      assert t == JwtCodec.Serialize(token);
      Jwt.AcceptedMeansSigned(jwt, token, now);
      assert false;
    }
  }

  /**
   * Rotation revokes: after a refresh accepted `t` for `u` and stored the
   * refresh token minted with a new `jti`, presenting `t` again is refused
   * with a 401 at any later instant.
   */
  lemma RotationRevokes(jwt: Jwt.JwtService, table: RefreshTable, t: string, now: int, jti: Uuids.Uuid, later: int, getFault: bool)
    requires CheckRefresh(jwt, table, Some(RefreshTokenRequest(t)), now, false).Passed?
    requires var c := Jwt.ValidateTokenString(jwt, t, now).value;
      "token" in c && c["token"] != JwtCodec.JString(Uuids.ToString(jti))
    ensures var u := CheckRefresh(jwt, table, Some(RefreshTokenRequest(t)), now, false).user;
      var rotated := table[u := RefreshRow(Jwt.GenerateRefreshToken(jwt, u, now, jti), RefreshExpiresAt(jwt, now))];
      var r := CheckRefresh(jwt, rotated, Some(RefreshTokenRequest(t)), later, getFault);
      r.Rejected? && r.status == StatusUnauthorized
  {
    var u := CheckRefresh(jwt, table, Some(RefreshTokenRequest(t)), now, false).user;
    var row := RefreshRow(Jwt.GenerateRefreshToken(jwt, u, now, jti), RefreshExpiresAt(jwt, now));
    CheckRefreshPassed(jwt, table, Some(RefreshTokenRequest(t)), now, false);
    FreshTokenDiffers(jwt, t, now, u, now, jti);
    var later' := Jwt.ExtractUserIdFromToken(jwt, t, later);
    if later'.Ok? {
      ClaimsTimeless(jwt, t, now, later);
      Uuids.ParseToString(u);
      assert later'.value == u;
      ReplacedTokenRejected(jwt, table, u, t, row, later, getFault);
    }
  }

  class AuthHandler {
    const jwtService: Jwt.JwtService
    const users: seq<Users.User>
    const generateOtpUc: OtpUseCases.GenerateOtpUseCase
    const validateOtpUc: OtpUseCases.ValidateOtpUseCase
    /** The repository behind the save, get and delete refresh-token use cases. */
    const authRepo: AuthRepository

    /** All use cases share one auth repository. */
    predicate Valid()
    {
      generateOtpUc.authRepo == authRepo && validateOtpUc.authRepo == authRepo
    }

    constructor(jwtService: Jwt.JwtService, users: seq<Users.User>, generateOtpUc: OtpUseCases.GenerateOtpUseCase,
                validateOtpUc: OtpUseCases.ValidateOtpUseCase, authRepo: AuthRepository)
      requires generateOtpUc.authRepo == authRepo && validateOtpUc.authRepo == authRepo
      ensures Valid()
      ensures this.jwtService == jwtService && this.users == users && this.authRepo == authRepo
      ensures this.generateOtpUc == generateOtpUc && this.validateOtpUc == validateOtpUc
    {
      this.jwtService := jwtService;
      this.users := users;
      this.generateOtpUc := generateOtpUc;
      this.validateOtpUc := validateOtpUc;
      this.authRepo := authRepo;
    }

    /** Mint an access and a refresh token for `user` and store the refresh token, as three handlers do. */
    method IssuePair(user: Uuids.Uuid, now: int, jtiAccess: Uuids.Uuid, jtiRefresh: Uuids.Uuid, saveFault: bool)
      returns (access: string, refresh: string, saved: bool)
      modifies authRepo
      ensures access == Jwt.GenerateAccessToken(jwtService, user, now, jtiAccess)
      ensures refresh == Jwt.GenerateRefreshToken(jwtService, user, now, jtiRefresh)
      ensures saved == !saveFault
      ensures saved ==> authRepo.refreshTokens == old(authRepo.refreshTokens)[user := RefreshRow(refresh, RefreshExpiresAt(jwtService, now))]
      ensures !saved ==> authRepo.refreshTokens == old(authRepo.refreshTokens)
      ensures authRepo.otps == old(authRepo.otps)
    {
      access := Jwt.GenerateAccessToken(jwtService, user, now, jtiAccess);
      refresh := Jwt.GenerateRefreshToken(jwtService, user, now, jtiRefresh);
      var err := authRepo.SaveRefreshToken(user, refresh, RefreshExpiresAt(jwtService, now), saveFault);
      saved := err.None?;
    }

    /** `RequestOTP`: a code is issued and stored for the user with that mobile; the response never carries it. */
    method RequestOtp(req: Option<SendOtpRequest>, now: int, read: Option<byte>, userFault: bool, saveFault: bool)
      returns (resp: Response)
      requires Valid()
      modifies authRepo
      ensures req.None? || req.value.mobile == "" ==>
                resp == Failure(StatusBadRequest, "Invalid request") && authRepo.otps == old(authRepo.otps)
      ensures req.Some? && req.value.mobile != "" && (userFault || ByField(users, MobileField(req.value.mobile)).None?) ==>
                resp == Failure(StatusNotFound, "User not found") && authRepo.otps == old(authRepo.otps)
      ensures req.Some? && req.value.mobile != "" && !userFault && ByField(users, MobileField(req.value.mobile)).Some? ==>
                var u := ByField(users, MobileField(req.value.mobile)).value;
                && (saveFault ==> resp == Failure(StatusInternalServerError, "Failed to generate OTP") && authRepo.otps == old(authRepo.otps))
                && (!saveFault ==> resp == OtpSent("OTP sent successfully")
                                   && authRepo.otps == old(authRepo.otps) + [OtpRow(u.id, OtpCodes.IssuedCode(read), now + OtpUseCases.OtpValidity, false)])
      ensures authRepo.refreshTokens == old(authRepo.refreshTokens)
    {
      if req.None? || req.value.mobile == "" {
        return Failure(StatusBadRequest, "Invalid request");
      }
      var user := if userFault then None else ByField(users, MobileField(req.value.mobile));
      if user.None? {
        return Failure(StatusNotFound, "User not found");
      }
      var otp, err := generateOtpUc.Execute(user.value.id, now, read, saveFault);
      if err.Some? {
        return Failure(StatusInternalServerError, "Failed to generate OTP");
      }
      return OtpSent("OTP sent successfully");
    }

    /** `VerifyOTP`: a user with a code that passes gets a token pair, and the refresh token is stored for it. */
    method VerifyOtp(req: Option<VerifyOtpRequest>, now: int, jtiAccess: Uuids.Uuid, jtiRefresh: Uuids.Uuid,
                     userFault: bool, lookupFault: bool, invalidateFault: bool, saveFault: bool)
      returns (resp: Response)
      requires Valid()
      modifies authRepo
      ensures req.None? ==> resp == Failure(StatusBadRequest, "Invalid request") && unchanged(authRepo)
      ensures req.Some? && (userFault || ByField(users, MobileField(req.value.mobile)).None?) ==>
                resp == Failure(StatusUnauthorized, "User not found") && unchanged(authRepo)
      ensures req.Some? && !userFault && ByField(users, MobileField(req.value.mobile)).Some? ==>
        var u := ByField(users, MobileField(req.value.mobile)).value;
        var passes := OtpPasses(validateOtpUc.config.magicOtp, old(authRepo.otps), u.id, req.value.otp, now, lookupFault);
        && (!passes ==> resp == Failure(StatusUnauthorized, "Invalid or expired OTP")
                        && authRepo.otps == old(authRepo.otps) && authRepo.refreshTokens == old(authRepo.refreshTokens))
        && (passes ==> authRepo.otps == OtpsAfterPass(validateOtpUc.config.magicOtp, old(authRepo.otps), u.id, req.value.otp, invalidateFault))
        && (passes && saveFault ==> resp == Failure(StatusInternalServerError, "Failed to save refresh token")
                                    && authRepo.refreshTokens == old(authRepo.refreshTokens))
        && (passes && !saveFault ==>
              var refresh := Jwt.GenerateRefreshToken(jwtService, u.id, now, jtiRefresh);
              && resp == Authenticated(Jwt.GenerateAccessToken(jwtService, u.id, now, jtiAccess), refresh, Summary(u))
              && authRepo.refreshTokens == old(authRepo.refreshTokens)[u.id := RefreshRow(refresh, RefreshExpiresAt(jwtService, now))])
    {
      if req.None? {
        return Failure(StatusBadRequest, "Invalid request");
      }
      var user := if userFault then None else ByField(users, MobileField(req.value.mobile));
      if user.None? {
        return Failure(StatusUnauthorized, "User not found");
      }
      resp := SignIn(user.value, req.value.otp, now, jtiAccess, jtiRefresh, lookupFault, invalidateFault, saveFault);
    }

    /** `ValidateOTPUseCase.Execute` as `VerifyOTP` reads it: an error counts as a refusal. */
    method CheckCode(user: Uuids.Uuid, code: string, now: int, lookupFault: bool, invalidateFault: bool) returns (passes: bool)
      requires Valid()
      modifies authRepo
      ensures passes == OtpPasses(validateOtpUc.config.magicOtp, old(authRepo.otps), user, code, now, lookupFault)
      ensures passes ==> authRepo.otps == OtpsAfterPass(validateOtpUc.config.magicOtp, old(authRepo.otps), user, code, invalidateFault)
      ensures !passes ==> authRepo.otps == old(authRepo.otps)
      ensures authRepo.refreshTokens == old(authRepo.refreshTokens)
    {
      var valid, err := validateOtpUc.Execute(user, code, now, lookupFault, invalidateFault);
      passes := err.None? && valid;
    }

    /** The part of `VerifyOTP` after the user is found: the code is checked, then a token pair is issued. */
    method SignIn(u: Users.User, code: string, now: int, jtiAccess: Uuids.Uuid, jtiRefresh: Uuids.Uuid,
                  lookupFault: bool, invalidateFault: bool, saveFault: bool)
      returns (resp: Response)
      requires Valid()
      modifies authRepo
      ensures var passes := OtpPasses(validateOtpUc.config.magicOtp, old(authRepo.otps), u.id, code, now, lookupFault);
        && (!passes ==> resp == Failure(StatusUnauthorized, "Invalid or expired OTP")
                        && authRepo.otps == old(authRepo.otps) && authRepo.refreshTokens == old(authRepo.refreshTokens))
        && (passes ==> authRepo.otps == OtpsAfterPass(validateOtpUc.config.magicOtp, old(authRepo.otps), u.id, code, invalidateFault))
        && (passes && saveFault ==> resp == Failure(StatusInternalServerError, "Failed to save refresh token")
                                    && authRepo.refreshTokens == old(authRepo.refreshTokens))
        && (passes && !saveFault ==>
              var refresh := Jwt.GenerateRefreshToken(jwtService, u.id, now, jtiRefresh);
              && resp == Authenticated(Jwt.GenerateAccessToken(jwtService, u.id, now, jtiAccess), refresh, Summary(u))
              && authRepo.refreshTokens == old(authRepo.refreshTokens)[u.id := RefreshRow(refresh, RefreshExpiresAt(jwtService, now))])
    {
      var valid := CheckCode(u.id, code, now, lookupFault, invalidateFault);
      if !valid {
        return Failure(StatusUnauthorized, "Invalid or expired OTP");
      }
      var access, refresh, saved := IssuePair(u.id, now, jtiAccess, jtiRefresh, saveFault);
      if !saved {
        return Failure(StatusInternalServerError, "Failed to save refresh token");
      }
      return Authenticated(access, refresh, Summary(u));
    }

    /** `RefreshToken`: the six checks of `CheckRefresh`, then the stored refresh token is replaced by a new one. */
    method RefreshToken(req: Option<RefreshTokenRequest>, now: int, jtiAccess: Uuids.Uuid, jtiRefresh: Uuids.Uuid,
                        getFault: bool, saveFault: bool)
      returns (resp: Response)
      modifies authRepo
      ensures var check := CheckRefresh(jwtService, old(authRepo.refreshTokens), req, now, getFault);
        && (check.Rejected? ==> resp == Failure(check.status, check.text) && authRepo.refreshTokens == old(authRepo.refreshTokens))
        && (check.Passed? && saveFault ==> resp == Failure(StatusInternalServerError, "Failed to save refresh token")
                                           && authRepo.refreshTokens == old(authRepo.refreshTokens))
        && (check.Passed? && !saveFault ==>
              var refresh := Jwt.GenerateRefreshToken(jwtService, check.user, now, jtiRefresh);
              && resp == TokenPair(Jwt.GenerateAccessToken(jwtService, check.user, now, jtiAccess), refresh)
              && authRepo.refreshTokens == old(authRepo.refreshTokens)[check.user := RefreshRow(refresh, RefreshExpiresAt(jwtService, now))])
      ensures authRepo.otps == old(authRepo.otps)
    {
      var check := RunChecks(req, now, getFault);
      if check.Rejected? {
        return Failure(check.status, check.text);
      }
      var access, refresh, saved := IssuePair(check.user, now, jtiAccess, jtiRefresh, saveFault);
      if !saved {
        return Failure(StatusInternalServerError, "Failed to save refresh token");
      }
      return TokenPair(access, refresh);
    }

    /** The checks of `RefreshToken` in the order the handler runs them; they write nothing. */
    method RunChecks(req: Option<RefreshTokenRequest>, now: int, getFault: bool) returns (check: RefreshCheck)
      ensures check == CheckRefresh(jwtService, authRepo.refreshTokens, req, now, getFault)
    {
      if req.None? || req.value.refreshToken == "" {
        return Rejected(StatusBadRequest, "Missing refresh token");
      }
      var t := req.value.refreshToken;
      var claims := Jwt.ValidateTokenString(jwtService, t, now);
      if claims.Err? {
        return Rejected(StatusUnauthorized, "Invalid refresh token");
      }
      if !Jwt.IsRefreshToken(claims.value) {
        return Rejected(StatusUnauthorized, "Not a refresh token");
      }
      var userId := Jwt.ExtractUserIdFromToken(jwtService, t, now);
      if userId.Err? {
        return Rejected(StatusUnauthorized, "Invalid token claims");
      }
      var stored := authRepo.GetRefreshToken(userId.value, now, getFault);
      if stored.Err? {
        return Rejected(StatusUnauthorized, "Refresh token not found");
      }
      if stored.value.token != t {
        return Rejected(StatusUnauthorized, "Refresh token mismatch");
      }
      if now > stored.value.expiresAt {
        return Rejected(StatusUnauthorized, "Refresh token expired");
      }
      return Passed(userId.value);
    }

    /** `Logout`: the context's user loses its stored refresh token; with none stored it succeeds all the same. */
    method Logout(ctx: Ctx, deleteFault: bool) returns (resp: Response)
      modifies authRepo
      ensures UserIdFromContext(ctx).None? ==> resp == Failure(StatusUnauthorized, "Unauthorized") && unchanged(authRepo)
      ensures UserIdFromContext(ctx).Some? && deleteFault ==> resp == Failure(StatusInternalServerError, "Failed to logout")
                                                              && authRepo.refreshTokens == old(authRepo.refreshTokens)
      ensures UserIdFromContext(ctx).Some? && !deleteFault ==>
                resp == LoggedOut("Logged out successfully")
                && authRepo.refreshTokens == old(authRepo.refreshTokens) - {UserIdFromContext(ctx).value}
      ensures authRepo.otps == old(authRepo.otps)
    {
      var userId := UserIdFromContext(ctx);
      if userId.None? {
        return Failure(StatusUnauthorized, "Unauthorized");
      }
      var err := authRepo.DeleteRefreshToken(userId.value, deleteFault);
      if err.Some? {
        return Failure(StatusInternalServerError, "Failed to logout");
      }
      return LoggedOut("Logged out successfully");
    }

    /** `CreateAuthToken`: a token pair for the context's user, stored as `VerifyOTP` stores it. */
    method CreateAuthToken(ctx: Ctx, now: int, jtiAccess: Uuids.Uuid, jtiRefresh: Uuids.Uuid, saveFault: bool)
      returns (resp: Response)
      modifies authRepo
      ensures UserIdFromContext(ctx).None? ==> resp == Failure(StatusUnauthorized, "Unauthorized") && unchanged(authRepo)
      ensures UserIdFromContext(ctx).Some? && saveFault ==>
                resp == Failure(StatusInternalServerError, "Failed to save refresh token")
                && authRepo.refreshTokens == old(authRepo.refreshTokens)
      ensures UserIdFromContext(ctx).Some? && !saveFault ==>
                var id := UserIdFromContext(ctx).value;
                var refresh := Jwt.GenerateRefreshToken(jwtService, id, now, jtiRefresh);
                && resp == TokenPair(Jwt.GenerateAccessToken(jwtService, id, now, jtiAccess), refresh)
                && authRepo.refreshTokens == old(authRepo.refreshTokens)[id := RefreshRow(refresh, RefreshExpiresAt(jwtService, now))]
      ensures authRepo.otps == old(authRepo.otps)
    {
      var userId := UserIdFromContext(ctx);
      if userId.None? {
        return Failure(StatusUnauthorized, "Unauthorized");
      }
      var access, refresh, saved := IssuePair(userId.value, now, jtiAccess, jtiRefresh, saveFault);
      if !saved {
        return Failure(StatusInternalServerError, "Failed to save refresh token");
      }
      return TokenPair(access, refresh);
    }

    /** `GetProfile`: the id, name and mobile of the context's user; nothing is written. */
    method GetProfile(ctx: Ctx, userFault: bool) returns (resp: Response)
      ensures UserIdFromContext(ctx).None? ==> resp == Failure(StatusUnauthorized, "Unauthorized")
      ensures UserIdFromContext(ctx).Some? ==>
        var found := if userFault then None else ByField(users, IdField(UserIdFromContext(ctx).value));
        && (found.None? ==> resp == Failure(StatusNotFound, "User not found"))
        && (found.Some? ==> resp == Profile(Summary(found.value)) && found.value.id == UserIdFromContext(ctx).value)
    {
      var userId := UserIdFromContext(ctx);
      if userId.None? {
        return Failure(StatusUnauthorized, "Unauthorized");
      }
      var user := if userFault then None else ByField(users, IdField(userId.value));
      if user.None? {
        return Failure(StatusNotFound, "User not found");
      }
      return Profile(Summary(user.value));
    }
  }
}
