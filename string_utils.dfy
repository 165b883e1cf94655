/**
 * `NullIfEmpty` and `SafeToLower` of internal/infrastructure/utils/string_utils.go,
 * the normalisation the user repository applies before writing a user's
 * name, mobile and email. Both take an `any`: a string, a `*string`, or
 * any other value; both return an `any` that is either nil or a string.
 */
module StringUtils {
  import opened Wrappers
  import Strs

  /** The dynamic value passed as `any`: a string, a `*string` (None is nil), or anything else. */
  datatype Dyn = DString(s: string) | DStringPtr(p: Option<string>) | DOther

  /** The string a string or a non-nil `*string` carries; None for nil and for other types. */
  function Pointee(v: Dyn): (r: Option<string>)
    ensures r.None? <==> v.DOther? || v == DStringPtr(None)
  {
    match v
    case DString(s) => Some(s)
    case DStringPtr(p) => p
    case DOther => None
  }

  /** `NullIfEmpty`: the trimmed string, or nil (None) when that is empty or the value is not a string. */
  function NullIfEmpty(v: Dyn): (r: Option<string>)
    ensures r.None? <==> Pointee(v).None? || Strs.TrimSpace(Pointee(v).value) == ""
    ensures r.Some? ==> r.value == Strs.TrimSpace(Pointee(v).value)
  {
    match Pointee(v)
    case None => None
    case Some(s) =>
      var trimmed := Strs.TrimSpace(s);
      if trimmed == "" then None else Some(trimmed)
  }

  /** `SafeToLower`: `NullIfEmpty`, then lower-cased. */
  function SafeToLower(v: Dyn): (r: Option<string>)
    ensures r.None? <==> NullIfEmpty(v).None?
    ensures r.Some? ==> r.value == Strs.ToLower(NullIfEmpty(v).value)
  {
    match Pointee(v)
    case None => None
    case Some(s) =>
      var trimmed := Strs.TrimSpace(s);
      if trimmed == "" then None else Some(Strs.ToLower(trimmed))
  }

  /** A `*string` behaves as the string it points to, and a nil one as nil, in both functions. */
  lemma PointerLikePointee(p: Option<string>)
    ensures p.None? ==> NullIfEmpty(DStringPtr(p)) == None && SafeToLower(DStringPtr(p)) == None
    ensures p.Some? ==> NullIfEmpty(DStringPtr(p)) == NullIfEmpty(DString(p.value))
                        && SafeToLower(DStringPtr(p)) == SafeToLower(DString(p.value))
  {
  }

  /** Values of any other type become nil. */
  lemma OtherIsNil()
    ensures NullIfEmpty(DOther) == None && SafeToLower(DOther) == None
  {
  }

  /** A string of white space only is nil in both functions, and "" is too. */
  lemma BlankIsNil(s: string)
    requires Strs.AllSpace(s)
    ensures NullIfEmpty(DString(s)) == None && SafeToLower(DString(s)) == None
  {
    Strs.TrimSpaceShape(s);
  }

  /** A non-nil result is non-empty and has no white space at either end. */
  lemma ResultsAreTrimmed(v: Dyn)
    ensures NullIfEmpty(v).Some? ==> var t := NullIfEmpty(v).value;
      t != "" && !Strs.IsSpace(t[0]) && !Strs.IsSpace(t[|t| - 1])
    ensures SafeToLower(v).Some? ==> var t := SafeToLower(v).value;
      t != "" && !Strs.IsSpace(t[0]) && !Strs.IsSpace(t[|t| - 1])
  {
    if Pointee(v).Some? {
      Strs.TrimSpaceShape(Pointee(v).value);
    }
  }

  /** Applying either function to its own non-nil result gives that result back. */
  lemma Idempotent(v: Dyn)
    ensures NullIfEmpty(v).Some? ==> NullIfEmpty(DString(NullIfEmpty(v).value)) == NullIfEmpty(v)
    ensures SafeToLower(v).Some? ==> SafeToLower(DString(SafeToLower(v).value)) == SafeToLower(v)
  {
    if NullIfEmpty(v).Some? {
      ResultsAreTrimmed(v);
      var t := NullIfEmpty(v).value;
      var l := Strs.ToLower(t);
      Strs.TrimSpaceOfTrimmed(t);
      assert l[0] == Strs.ToLower(t)[0] && l[|l| - 1] == Strs.ToLower(t)[|t| - 1];
      Strs.TrimSpaceOfTrimmed(l);
      Strs.ToLowerIdempotent(t);
    }
  }

  /** `SafeToLower` results contain no upper-case ASCII letter. */
  lemma NoUpperCase(v: Dyn)
    ensures SafeToLower(v).Some? ==> forall i :: 0 <= i < |SafeToLower(v).value| ==> !Strs.IsUpperAscii(SafeToLower(v).value[i])
  {
  }
}
