/**
 * `AuthRepositoryImpl` of internal/infrastructure/repositories/auth_repository_impl.go
 * as the two tables its SQL reads and writes:
 *
 *   user_otps            an append-only sequence of rows (no key, duplicates allowed)
 *   user_refresh_tokens  at most one row per user (`ON CONFLICT (user_id)`)
 *
 * `now` is the database's `NOW()`. A fault of the driver or the database
 * (`dbError`) makes a statement fail with no effect.
 */
module AuthRepository {
  import opened Wrappers
  import Uuids

  datatype OtpRow = OtpRow(user: Uuids.Uuid, code: string, expiresAt: int, used: bool)

  /** A user's refresh token and its expiry; the `updated_at` column is written but never read, and is not kept. */
  datatype RefreshRow = RefreshRow(token: string, expiresAt: int)

  /**
   * Fault: any error of the driver or the database. NoRows: `sql.ErrNoRows`.
   * NotFound: `repositories.ErrNotFound` ("item not found").
   */
  datatype StoreError = Fault | NoRows | NotFound

  type RefreshTable = map<Uuids.Uuid, RefreshRow>

  // ---- the relational meaning of each statement ---------------------------

  /** The `WHERE` of GetValidOTP: this user and code, not yet expired, not used. */
  predicate IsValidOtp(row: OtpRow, user: Uuids.Uuid, code: string, now: int)
  {
    row.user == user && row.code == code && row.expiresAt > now && !row.used
  }

  /** `SELECT COUNT(*) > 0 … WHERE user_id = $1 AND otp = $2 AND expires_at > NOW() AND used = FALSE`. */
  predicate HasValidOtp(otps: seq<OtpRow>, user: Uuids.Uuid, code: string, now: int)
  {
    exists i :: 0 <= i < |otps| && IsValidOtp(otps[i], user, code, now)
  }

  /** `UPDATE user_otps SET used = TRUE WHERE user_id = $1 AND otp = $2`. */
  function MarkUsed(otps: seq<OtpRow>, user: Uuids.Uuid, code: string): (r: seq<OtpRow>)
    ensures |r| == |otps|
    ensures forall i :: 0 <= i < |r| ==>
      if otps[i].user == user && otps[i].code == code then r[i] == otps[i].(used := true) else r[i] == otps[i]
  {
    seq(|otps|, i requires 0 <= i < |otps| =>
      if otps[i].user == user && otps[i].code == code then otps[i].(used := true) else otps[i])
  }

  /** A user with a token. */
  predicate Holds(t: RefreshTable, user: Uuids.Uuid, token: string, now: int)
  {
    user in t && t[user].token == token && t[user].expiresAt > now
  }

  /** `SELECT token, expires_at FROM user_refresh_tokens WHERE user_id = $1 AND expires_at > NOW()`. */
  function LiveRefreshToken(t: RefreshTable, user: Uuids.Uuid, now: int): (r: Result<RefreshRow, StoreError>)
    ensures r.Ok? <==> user in t && t[user].expiresAt > now
    ensures r.Ok? ==> r.value == t[user] && Holds(t, user, r.value.token, now)
    ensures r.Err? ==> r.error == NoRows
  {
    if user in t && t[user].expiresAt > now then Ok(t[user]) else Err(NoRows)
  }

  class AuthRepository {
    var otps: seq<OtpRow>
    var refreshTokens: RefreshTable

    constructor()
      ensures otps == [] && refreshTokens == map[]
    {
      otps := [];
      refreshTokens := map[];
    }

    /** `SaveOTP`: one new unused row; nothing else changes. */
    method SaveOtp(user: Uuids.Uuid, code: string, expiresAt: int, dbError: bool) returns (err: Option<StoreError>)
      modifies this
      ensures dbError ==> err == Some(Fault) && otps == old(otps)
      ensures !dbError ==> err == None && otps == old(otps) + [OtpRow(user, code, expiresAt, false)]
      ensures refreshTokens == old(refreshTokens)
    {
      if dbError {
        return Some(Fault);
      }
      otps := otps + [OtpRow(user, code, expiresAt, false)];
      return None;
    }

    /** `GetValidOTP`: whether a usable row exists; a query never changes the tables. */
    method GetValidOtp(user: Uuids.Uuid, code: string, now: int, dbError: bool) returns (valid: bool, err: Option<StoreError>)
      ensures dbError ==> !valid && err == Some(Fault)
      ensures !dbError ==> valid == HasValidOtp(otps, user, code, now) && err == None
    {
      if dbError {
        return false, Some(Fault);
      }
      valid := exists i :: 0 <= i < |otps| && IsValidOtp(otps[i], user, code, now);
      err := None;
    }

    /** `InvalidateOTP`: every row of this user and code is marked used, expired or not. */
    method InvalidateOtp(user: Uuids.Uuid, code: string, dbError: bool) returns (err: Option<StoreError>)
      modifies this
      ensures dbError ==> err == Some(Fault) && otps == old(otps)
      ensures !dbError ==> err == None && otps == MarkUsed(old(otps), user, code)
      ensures refreshTokens == old(refreshTokens)
    {
      if dbError {
        return Some(Fault);
      }
      otps := MarkUsed(otps, user, code);
      return None;
    }

    /** `SaveRefreshToken`: an upsert on `user_id`. */
    method SaveRefreshToken(user: Uuids.Uuid, token: string, expiresAt: int, dbError: bool) returns (err: Option<StoreError>)
      modifies this
      ensures dbError ==> err == Some(Fault) && refreshTokens == old(refreshTokens)
      ensures !dbError ==> err == None && refreshTokens == old(refreshTokens)[user := RefreshRow(token, expiresAt)]
      ensures otps == old(otps)
    {
      if dbError {
        return Some(Fault);
      }
      refreshTokens := refreshTokens[user := RefreshRow(token, expiresAt)];
      return None;
    }

    /** `GetRefreshToken`: the user's row while it has not expired. */
    method GetRefreshToken(user: Uuids.Uuid, now: int, dbError: bool) returns (r: Result<RefreshRow, StoreError>)
      ensures dbError ==> r == Err(Fault)
      ensures !dbError ==> r == LiveRefreshToken(refreshTokens, user, now)
    {
      if dbError {
        return Err(Fault);
      }
      if user in refreshTokens && refreshTokens[user].expiresAt > now {
        return Ok(refreshTokens[user]);
      }
      return Err(NoRows);
    }

    /** `DeleteRefreshToken`: the user's row is gone, whether or not there was one. */
    method DeleteRefreshToken(user: Uuids.Uuid, dbError: bool) returns (err: Option<StoreError>)
      modifies this
      ensures dbError ==> err == Some(Fault) && refreshTokens == old(refreshTokens)
      ensures !dbError ==> err == None && refreshTokens == old(refreshTokens) - {user}
      ensures otps == old(otps)
    {
      if dbError {
        return Some(Fault);
      }
      refreshTokens := refreshTokens - {user};
      return None;
    }

    /** `GetUserIDByRefreshToken`: some user holding this live token (`LIMIT 1` without an order), else ErrNotFound. */
    method GetUserIdByRefreshToken(token: string, now: int, dbError: bool) returns (r: Result<Uuids.Uuid, StoreError>)
      ensures dbError ==> r == Err(Fault)
      ensures !dbError && r.Ok? ==> Holds(refreshTokens, r.value, token, now)
      ensures !dbError && r.Err? ==> r.error == NotFound && forall u :: !Holds(refreshTokens, u, token, now)
      ensures !dbError ==> (r.Ok? <==> exists u :: Holds(refreshTokens, u, token, now))
    {
      if dbError {
        return Err(Fault);
      }
      if exists u :: u in refreshTokens && Holds(refreshTokens, u, token, now) {
        var u :| u in refreshTokens && Holds(refreshTokens, u, token, now);
        return Ok(u);
      }
      return Err(NotFound);
    }

    /** `InvalidateAllUserTokens`: the same statement as DeleteRefreshToken. */
    method InvalidateAllUserTokens(user: Uuids.Uuid, dbError: bool) returns (err: Option<StoreError>)
      modifies this
      ensures dbError ==> err == Some(Fault) && refreshTokens == old(refreshTokens)
      ensures !dbError ==> err == None && refreshTokens == old(refreshTokens) - {user}
      ensures otps == old(otps)
    {
      err := DeleteRefreshToken(user, dbError);
    }
  }

  // ---- properties of the tables -------------------------------------------

  /** A code saved with an expiry in the future is valid for its user until it expires. */
  lemma SavedOtpIsValid(otps: seq<OtpRow>, user: Uuids.Uuid, code: string, expiresAt: int, now: int)
    requires now < expiresAt
    ensures HasValidOtp(otps + [OtpRow(user, code, expiresAt, false)], user, code, now)
  {
    var t := otps + [OtpRow(user, code, expiresAt, false)];
    assert IsValidOtp(t[|otps|], user, code, now);
  }

  /** Saving a row never makes any other (user, code) pair valid or invalid. */
  lemma SaveOtpKeepsOthers(otps: seq<OtpRow>, row: OtpRow, user: Uuids.Uuid, code: string, now: int)
    requires row.user != user || row.code != code
    ensures HasValidOtp(otps + [row], user, code, now) == HasValidOtp(otps, user, code, now)
  {
    var t := otps + [row];
    if HasValidOtp(t, user, code, now) {
      var i :| 0 <= i < |t| && IsValidOtp(t[i], user, code, now);
      assert i < |otps| && otps[i] == t[i];
    }
    if HasValidOtp(otps, user, code, now) {
      var i :| 0 <= i < |otps| && IsValidOtp(otps[i], user, code, now);
      assert t[i] == otps[i];
    }
  }

  /** After invalidation the code is no longer valid for its user, whatever the instant. */
  lemma MarkUsedInvalidates(otps: seq<OtpRow>, user: Uuids.Uuid, code: string, now: int)
    ensures !HasValidOtp(MarkUsed(otps, user, code), user, code, now)
  {
    var m := MarkUsed(otps, user, code);
    forall i | 0 <= i < |m|
      ensures !IsValidOtp(m[i], user, code, now)
    {
    }
  }

  /** Invalidation leaves every other (user, code) pair as valid or invalid as it was. */
  lemma MarkUsedKeepsOthers(otps: seq<OtpRow>, user: Uuids.Uuid, code: string, u: Uuids.Uuid, c: string, now: int)
    requires u != user || c != code
    ensures HasValidOtp(MarkUsed(otps, user, code), u, c, now) == HasValidOtp(otps, u, c, now)
  {
    var m := MarkUsed(otps, user, code);
    if HasValidOtp(otps, u, c, now) {
      var i :| 0 <= i < |otps| && IsValidOtp(otps[i], u, c, now);
      assert m[i] == otps[i];
    }
    if HasValidOtp(m, u, c, now) {
      var i :| 0 <= i < |m| && IsValidOtp(m[i], u, c, now);
      assert m[i] == otps[i];
    }
  }

  /** A saved refresh token is read back, before its expiry, and afterwards the read fails. */
  lemma SaveThenGet(t: RefreshTable, user: Uuids.Uuid, token: string, expiresAt: int, now: int)
    ensures var t' := t[user := RefreshRow(token, expiresAt)];
      && (now < expiresAt ==> LiveRefreshToken(t', user, now) == Ok(RefreshRow(token, expiresAt)))
      && (now >= expiresAt ==> LiveRefreshToken(t', user, now) == Err(NoRows))
  {
  }

  /** The upsert replaces the user's previous token: the old token no longer belongs to the user, and other users keep theirs. */
  lemma SaveReplaces(t: RefreshTable, user: Uuids.Uuid, previous: string, token: string, expiresAt: int, other: Uuids.Uuid, now: int)
    requires previous != token
    requires other != user
    ensures !Holds(t[user := RefreshRow(token, expiresAt)], user, previous, now)
    ensures (other in t[user := RefreshRow(token, expiresAt)]) == (other in t)
    ensures other in t ==> t[user := RefreshRow(token, expiresAt)][other] == t[other]
  {
  }

  /** Deleting is idempotent, and after a delete the user's token cannot be read, nor found by value. */
  lemma DeleteIdempotent(t: RefreshTable, user: Uuids.Uuid, token: string, now: int)
    ensures (t - {user}) - {user} == t - {user}
    ensures LiveRefreshToken(t - {user}, user, now) == Err(NoRows)
    ensures !Holds(t - {user}, user, token, now)
  {
  }
}
