/**
 * `SupabaseAuthMiddleware` of internal/infrastructure/http/middleware/supabase_auth.go,
 * a stub gate: the token is never examined, every admitted request gets the
 * same fixed user id, and that id is bound under the bare string key
 * "userID" rather than under `contextkeys.UserIDKey`.
 */
module SupabaseAuth {
  import opened Wrappers
  import opened Http
  import Uuids
  import Strs
  import Bearer

  /** The id `uuid.MustParse("550e8400-e29b-41d4-a716-446655440000")` yields. */
  const DefaultUserId: Uuids.Uuid :=
    [0x55, 0x0e, 0x84, 0x00, 0xe2, 0x9b, 0x41, 0xd4, 0xa7, 0x16, 0x44, 0x66, 0x55, 0x44, 0x00, 0x00]

  const InvalidFormatText: string := "Invalid authorization header format"

  /** The service key is accepted and unused. */
  function SupabaseAuthMiddleware(supabaseKey: string, header: string, ctx: Ctx): (o: Outcome)
    ensures header == "" ==> o == Next(ctx[Plain("userID") := UserIdValue(DefaultUserId)])
    ensures header != "" && !Strs.HasPrefix(header, Bearer.Prefix) ==> o == Reject(StatusUnauthorized, Text(InvalidFormatText))
    ensures Strs.HasPrefix(header, Bearer.Prefix) ==> o == Next(ctx[Plain("userID") := UserIdValue(DefaultUserId)])
  {
    if header == "" then Next(ctx[Plain("userID") := UserIdValue(DefaultUserId)])
    else
      var token := Strs.TrimPrefix(header, Bearer.Prefix);
      if token == header then Reject(StatusUnauthorized, Text(InvalidFormatText))
      else Next(ctx[Plain("userID") := UserIdValue(DefaultUserId)])
  }

  /** Two headers that are both empty, or both start with "Bearer ", are treated alike, whatever else they contain. */
  lemma OnlyShapeMatters(key1: string, key2: string, h1: string, h2: string, ctx: Ctx)
    requires (h1 == "" && h2 == "") || (Strs.HasPrefix(h1, Bearer.Prefix) && Strs.HasPrefix(h2, Bearer.Prefix))
    ensures SupabaseAuthMiddleware(key1, h1, ctx) == SupabaseAuthMiddleware(key2, h2, ctx)
  {
  }

  /** Whatever it admits, the request carries no user id that `UserIDFromContext` can see, unless one was there before. */
  lemma StubIdInvisible(key: string, header: string, ctx: Ctx)
    requires SupabaseAuthMiddleware(key, header, ctx).Next?
    ensures UserIdFromContext(SupabaseAuthMiddleware(key, header, ctx).ctx) == UserIdFromContext(ctx)
  {
  }
}
