/**
 * `UpdateUserProfileUseCase` of internal/usecases/update_user_profile.go: a
 * guard against a request with nothing to change, then one call of the
 * repository's `UpdateProfile`.
 */
module UpdateUserProfile {
  import opened Wrappers
  import opened UserRepository
  import UseCaseErrors
  import StringUtils
  import Uuids

  /** An error `Execute` returns: its own sentinel, or the repository's error as it came. */
  datatype ProfileError = Rejected(e: UseCaseErrors.UseCaseError) | Failed(cause: RepoError)

  /** A field the guard counts as missing: absent, or the empty string. */
  predicate Blank(field: Option<string>)
  {
    field == None || field == Some("")
  }

  /** The guard: at least one field is present and not the empty string. */
  predicate HasChange(req: UpdateUserProfileRequest)
  {
    !(Blank(req.name) && Blank(req.email))
  }

  class UpdateUserProfileUseCase {
    const userRepo: UserRepository

    constructor(userRepo: UserRepository)
      ensures this.userRepo == userRepo
    {
      this.userRepo := userRepo;
    }

    /**
     * A request without a change is refused with `ErrInvalidInput` and no
     * statement is sent; otherwise `UpdateProfile` runs once with the same
     * request, and its error, if any, is returned unchanged.
     */
    method Execute(user: Uuids.Uuid, req: UpdateUserProfileRequest, now: int, dbError: bool)
        returns (err: Option<ProfileError>)
      modifies userRepo
      ensures !HasChange(req) ==> err == Some(Rejected(UseCaseErrors.InvalidInput)) && userRepo.sent == old(userRepo.sent)
      ensures HasChange(req) ==> userRepo.sent == old(userRepo.sent) + [ProfileStatement(user, req, now)]
      ensures HasChange(req) ==> err == (if dbError then Some(Failed(ExecFailed)) else None)
    {
      if (req.name == None || req.name == Some("")) && (req.email == None || req.email == Some("")) {
        return Some(Rejected(UseCaseErrors.InvalidInput));
      }
      var e := userRepo.UpdateProfile(user, req, now, dbError);
      if e.Some? {
        return Some(Failed(e.value));
      }
      return None;
    }
  }

  /** A request the guard admits sets at least one column, so the SET list is never empty. */
  lemma AdmittedRequestSetsColumns(user: Uuids.Uuid, req: UpdateUserProfileRequest, now: int)
    requires HasChange(req)
    ensures |ProfileColumns(req)| >= 1
    ensures |ProfileStatement(user, req, now).args| >= 3
  {
  }

  /**
   * Only the empty string counts as missing: a name of spaces passes the guard,
   * and `NullIfEmpty` then writes SQL NULL into the name column.
   */
  lemma WhitespaceNamePasses(user: Uuids.Uuid, now: int)
    ensures HasChange(UpdateUserProfileRequest(Some("  "), None))
    ensures ProfileStatement(user, UpdateUserProfileRequest(Some("  "), None), now).args
            == [Text(None), Time(now), Id(user)]
  {
    StringUtils.BlankIsNil("  ");
  }
}
