/**
 * `UserMiddleware` of internal/infrastructure/http/middleware/user_middleware.go:
 * resolves the context's user id to a user record through a cache the
 * closure keeps for the life of the server, and admits only active users.
 *
 * The repository's answer for the requested id is a parameter of each call
 * (`fetched`, None when `GetByID` fails); the ghost counter `fetches` counts
 * the calls that consulted the repository.
 */
module UserMiddleware {
  import opened Wrappers
  import opened Http
  import Uuids
  import Users

  const UserNotFoundText: string := "User not found"
  const InactiveText: string := "User account inactive"
  const UnauthorizedText: string := "Unauthorized"

  /** Steps 4 and 5 of the handler: the status policy, then the next handler with the user bound. */
  function Admit(u: Users.User, ctx: Ctx): (o: Outcome)
    ensures !u.IsActive() <==> o == Reject(StatusForbidden, Text(InactiveText))
    ensures u.IsActive() <==> o == Next(ctx[CurrentUserKey := UserValue(u)])
  {
    if !u.IsActive() then Reject(StatusForbidden, Text(InactiveText))
    else Next(ctx[CurrentUserKey := UserValue(u)])
  }

  /**
   * What one request does to the cache, as a function of the cache before:
   * the outcome, the cache after, and whether the repository was consulted.
   */
  datatype Step = Step(outcome: Outcome, cache: map<Uuids.Uuid, Users.User>, fetched: bool)

  function Resolve(cache: map<Uuids.Uuid, Users.User>, ctx: Ctx, fetched: Option<Users.User>): Step
  {
    match UserIdFromContext(ctx)
    case None => Step(Reject(StatusUnauthorized, Text(UnauthorizedText)), cache, false)
    case Some(id) =>
      if id in cache then Step(Admit(cache[id], ctx), cache, false)
      else
        match fetched
        case None => Step(Reject(StatusUnauthorized, Text(UserNotFoundText)), cache, true)
        case Some(u) => Step(Admit(u, ctx), cache[id := u], true)
  }

  class UserMiddleware {
    var cache: map<Uuids.Uuid, Users.User>
    ghost var fetches: nat

    /** `UserMiddleware(repo, ttl)`: an empty cache; the ttl is accepted and never used. */
    constructor(ttl: int)
      ensures cache == map[] && fetches == 0
    {
      cache := map[];
      fetches := 0;
    }

    /** Serves one request with context `ctx`, `fetched` being what `GetByID` would answer for its id. */
    method Serve(ctx: Ctx, fetched: Option<Users.User>) returns (o: Outcome)
      modifies this
      ensures var step := Resolve(old(cache), ctx, fetched);
        && o == step.outcome
        && cache == step.cache
        && fetches == old(fetches) + (if step.fetched then 1 else 0)
    {
      var id := UserIdFromContext(ctx);
      if id.None? {
        return Reject(StatusUnauthorized, Text(UnauthorizedText));
      }
      var userId := id.value;
      var user: Users.User;
      if userId in cache {
        user := cache[userId];
      } else {
        fetches := fetches + 1;
        if fetched.None? {
          return Reject(StatusUnauthorized, Text(UserNotFoundText));
        }
        user := fetched.value;
        cache := cache[userId := user];
      }
      if !user.IsActive() {
        return Reject(StatusForbidden, Text(InactiveText));
      }
      o := Next(ctx[CurrentUserKey := UserValue(user)]);
    }
  }

  // ---- properties of one request ------------------------------------------

  /** Without a user id the request is refused 401, the repository is not asked and the cache is untouched. */
  lemma NoIdRejected(cache: map<Uuids.Uuid, Users.User>, ctx: Ctx, fetched: Option<Users.User>)
    requires UserIdFromContext(ctx).None?
    ensures Resolve(cache, ctx, fetched) == Step(Reject(StatusUnauthorized, Text(UnauthorizedText)), cache, false)
  {
  }

  /** A cached id is served from the cache, whatever the repository would say, and the cache is untouched. */
  lemma CacheHit(cache: map<Uuids.Uuid, Users.User>, ctx: Ctx, fetched: Option<Users.User>)
    requires UserIdFromContext(ctx).Some? && UserIdFromContext(ctx).value in cache
    ensures var step := Resolve(cache, ctx, fetched);
      && !step.fetched && step.cache == cache
      && step.outcome == Admit(cache[UserIdFromContext(ctx).value], ctx)
  {
  }

  /** A miss asks the repository: a failure is 401 and caches nothing; a user found is cached, active or not. */
  lemma CacheMiss(cache: map<Uuids.Uuid, Users.User>, ctx: Ctx, fetched: Option<Users.User>)
    requires UserIdFromContext(ctx).Some? && UserIdFromContext(ctx).value !in cache
    ensures var id := UserIdFromContext(ctx).value;
      var step := Resolve(cache, ctx, fetched);
      && step.fetched
      && (fetched.None? ==> step.outcome == Reject(StatusUnauthorized, Text(UserNotFoundText)) && step.cache == cache)
      && (fetched.Some? ==> step.cache == cache[id := fetched.value] && step.outcome == Admit(fetched.value, ctx))
  {
  }

  /** Entries are never removed or replaced, and no id other than the requested one is touched. */
  lemma CacheOnlyGrows(cache: map<Uuids.Uuid, Users.User>, ctx: Ctx, fetched: Option<Users.User>, other: Uuids.Uuid)
    ensures var after := Resolve(cache, ctx, fetched).cache;
      && (forall k :: k in cache ==> k in after && after[k] == cache[k])
      && (UserIdFromContext(ctx) != Some(other) ==> (other in after <==> other in cache))
  {
  }

  /** Only an active user reaches the next handler, and it finds that user under `CurrentUserKey`. */
  lemma AdmittedIsActive(cache: map<Uuids.Uuid, Users.User>, ctx: Ctx, fetched: Option<Users.User>)
    requires Resolve(cache, ctx, fetched).outcome.Next?
    ensures var next := Resolve(cache, ctx, fetched).outcome.ctx;
      && CurrentUserKey in next && next[CurrentUserKey].UserValue?
      && next[CurrentUserKey].user.IsActive()
      && UserIdFromContext(ctx).Some?
      && Resolve(cache, ctx, fetched).cache[UserIdFromContext(ctx).value] == next[CurrentUserKey].user
  {
  }

  /** Once an id has been resolved, later requests for it never consult the repository again. */
  lemma SecondRequestIsHit(cache: map<Uuids.Uuid, Users.User>, ctx: Ctx, f1: Option<Users.User>, f2: Option<Users.User>)
    requires UserIdFromContext(ctx).Some?
    requires Resolve(cache, ctx, f1).outcome.Next? || UserIdFromContext(ctx).value in Resolve(cache, ctx, f1).cache
    ensures var c1 := Resolve(cache, ctx, f1).cache;
      && !Resolve(c1, ctx, f2).fetched
      && Resolve(c1, ctx, f2).outcome == Resolve(cache, ctx, f1).outcome
  {
  }
}
