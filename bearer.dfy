/**
 * `ExtractBearerToken` of internal/infrastructure/utils/jwt_utils.go: the
 * credential of an `Authorization: Bearer …` header (section 2.1 of RFC
 * 6750), with the scheme matched case-sensitively, and the request value read
 * as the header's string (`Header.Get` yields "" when it is absent).
 */
module Bearer {
  import opened Wrappers
  import Strs

  const Prefix: string := "Bearer "

  datatype BearerError = MissingHeader | InvalidFormat
  {
    /** The error text, which the middleware writes as the 401 body. */
    function Message(): string
    {
      match this
      case MissingHeader => "missing Authorization header"
      case InvalidFormat => "invalid authorization header format"
    }
  }

  function ExtractBearerToken(header: string): (r: Result<string, BearerError>)
    ensures r == Err(MissingHeader) <==> header == ""
    ensures r == Err(InvalidFormat) <==> header != "" && !Strs.HasPrefix(header, Prefix)
    ensures r.Ok? <==> Strs.HasPrefix(header, Prefix)
    ensures r.Ok? ==> header == Prefix + r.value
  {
    if header == "" then Err(MissingHeader)
    else if !Strs.HasPrefix(header, Prefix) then Err(InvalidFormat)
    else Ok(Strs.TrimPrefix(header, Prefix))
  }

  /** Exactly one "Bearer " is removed: whatever follows it is the token, itself possibly starting with "Bearer ". */
  lemma ExtractPrefixed(t: string)
    ensures ExtractBearerToken(Prefix + t) == Ok(t)
  {
    assert (Prefix + t)[..|Prefix|] == Prefix;
    assert (Prefix + t)[|Prefix|..] == t;
  }

  /** The scheme alone yields the empty token, without an error. */
  lemma ExtractBareScheme()
    ensures ExtractBearerToken("Bearer ") == Ok("")
  {
    ExtractPrefixed("");
  }

  /** The scheme is case-sensitive and needs its space. */
  lemma ExtractWrongScheme()
    ensures ExtractBearerToken("bearer abc") == Err(InvalidFormat)
    ensures ExtractBearerToken("Bearer") == Err(InvalidFormat)
    ensures ExtractBearerToken("Basic abc") == Err(InvalidFormat)
  {
    assert "bearer abc"[..7] != Prefix by { assert "bearer abc"[0] == 'b'; }
    assert "Basic abc"[..7] != Prefix by { assert "Basic abc"[1] == 'a'; }
  }
}
