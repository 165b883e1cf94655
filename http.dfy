/**
 * What the handlers and middleware see of a request and what they do with it:
 * the request context as a map from keys to values (`context.WithValue`),
 * the two typed keys of internal/contextkeys, and the outcome of a gate —
 * either an error response or a call of the next handler with a context.
 */
module Http {
  import opened Wrappers
  import Uuids
  import Users

  const StatusOK: int := 200
  const StatusBadRequest: int := 400
  const StatusUnauthorized: int := 401
  const StatusForbidden: int := 403
  const StatusNotFound: int := 404
  const StatusInternalServerError: int := 500

  /**
   * A context key: a `contextkeys.ContextKey` or a bare Go `string`. Keys of
   * different types never match, even when their text is the same.
   */
  datatype Key = Typed(name: string) | Plain(name: string)

  datatype Value = UserIdValue(id: Uuids.Uuid) | UserValue(user: Users.User)

  type Ctx = map<Key, Value>

  const UserIdKey: Key := Typed("userID")
  const CurrentUserKey: Key := Typed("currentUser")

  /** `contextkeys.UserIDFromContext`: a `uuid.UUID` under `UserIDKey`, if there is one. */
  function UserIdFromContext(ctx: Ctx): (r: Option<Uuids.Uuid>)
    ensures r.Some? <==> UserIdKey in ctx && ctx[UserIdKey].UserIdValue?
    ensures r.Some? ==> ctx[UserIdKey] == UserIdValue(r.value)
  {
    if UserIdKey in ctx && ctx[UserIdKey].UserIdValue? then Some(ctx[UserIdKey].id) else None
  }

  /** The text of an error response (`http.Error` writes it followed by a newline). */
  datatype Reason = Text(text: string)

  /** An error response with its status, or the next handler running with the given context. */
  datatype Outcome = Reject(status: int, reason: Reason) | Next(ctx: Ctx)

  /** Adding a binding under one key leaves what the other keys hold. */
  lemma WithValueKeepsOthers(ctx: Ctx, k: Key, v: Value, other: Key)
    requires other != k
    ensures (other in ctx[k := v]) == (other in ctx)
    ensures other in ctx ==> ctx[k := v][other] == ctx[other]
  {
  }

  /** A binding under the plain string key "userID" is not visible to `UserIdFromContext`. */
  lemma PlainKeyInvisible(ctx: Ctx, id: Uuids.Uuid)
    ensures UserIdFromContext(ctx[Plain("userID") := UserIdValue(id)]) == UserIdFromContext(ctx)
  {
  }
}
