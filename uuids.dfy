/** RFC 4122 identifiers as `github.com/google/uuid` renders and parses them. */
module Uuids {
  import opened Wrappers
  import Hex
  import Numerals

  /** `uuid.UUID` is `[16]byte`. */
  type Uuid = s: seq<byte> | |s| == 16 witness seq(16, _ => 0)

  /** `uuid.Nil`, the all-zero identifier. */
  const Nil: Uuid := seq(16, _ => 0)

  /** `UUID.String`: the canonical form xxxxxxxx-xxxx-xxxx-xxxx-xxxxxxxxxxxx in lower case. */
  function ToString(u: Uuid): (s: string)
    ensures |s| == 36
    ensures s[8] == '-' && s[13] == '-' && s[18] == '-' && s[23] == '-'
    ensures IsAscii(s)
  {
    Hex.Encode(u[..4]) + "-" + Hex.Encode(u[4..6]) + "-" + Hex.Encode(u[6..8]) + "-"
    + Hex.Encode(u[8..10]) + "-" + Hex.Encode(u[10..])
  }

  /** ASCII case-insensitive equality, `strings.EqualFold` on the "urn:uuid:" prefix. */
  predicate EqualFoldAscii(a: string, b: string)
  {
    |a| == |b| && forall i :: 0 <= i < |a| ==> LowerAscii(a[i]) == LowerAscii(b[i])
  }

  function LowerAscii(c: char): char
  {
    if 'A' <= c <= 'Z' then (c as int + 32) as char else c
  }

  /** The 36-character form: hyphens at 8, 13, 18 and 23 and hex digit pairs elsewhere. */
  function ParseCanonical(s: string): (r: Option<Uuid>)
    requires |s| == 36
  {
    if s[8] != '-' || s[13] != '-' || s[18] != '-' || s[23] != '-' then None
    else
      match Hex.Decode(s[..8] + s[9..13] + s[14..18] + s[19..23] + s[24..])
      case None => None
      case Some(bytes) => var u: Uuid := bytes; Some(u)
  }

  /** Every character is ASCII, so the UTF-8 encoding has one byte per character. */
  predicate IsAscii(s: string)
  {
    forall i :: 0 <= i < |s| ==> s[i] as int < 0x80
  }

  /**
   * `uuid.Parse`: the 36-character form, the same behind an "urn:uuid:" prefix
   * (compared case-insensitively), the same inside one character on each side
   * (the braces are not checked), and 32 bare hex digits; any other length fails.
   * Go measures and indexes bytes: a non-ASCII character makes some byte that
   * must be a hex digit or a hyphen a byte of 0x80 or more, so such strings fail.
   */
  function Parse(s: string): (r: Option<Uuid>)
  {
    if !IsAscii(s) then None
    else if |s| == 36 then ParseCanonical(s)
    else if |s| == 45 then (if EqualFoldAscii(s[..9], "urn:uuid:") then ParseCanonical(s[9..]) else None)
    else if |s| == 38 then ParseCanonical(s[1..37])
    else if |s| == 32 then
      match Hex.Decode(s)
      case None => None
      case Some(bytes) => var u: Uuid := bytes; Some(u)
    else None
  }

  /** A string with a non-ASCII character is refused, even with a canonical identifier inside. */
  lemma NonAsciiRefused(s: string, i: int)
    requires 0 <= i < |s| && s[i] as int >= 0x80
    ensures Parse(s) == None
  {
  }

  /** Why `uuid.Parse` refused a string, with the text its error carries. */
  datatype ParseError = InvalidLength(length: nat) | InvalidUrnPrefix(prefix: string) | InvalidFormat
  {
    function Message(): string
    {
      match this
      case InvalidLength(n) => "invalid UUID length: " + Numerals.NatToString(n)
      case InvalidUrnPrefix(p) => "invalid urn prefix: " + Quote(p)
      case InvalidFormat => "invalid UUID format"
    }
  }

  /**
   * The error `uuid.Parse` reports for a string it refuses: a length other
   * than 32, 36, 38 and 45, a 45-character string without the "urn:uuid:"
   * prefix, and otherwise a misplaced hyphen or a non-hex digit.
   */
  function ParseFailure(s: string): (e: ParseError)
    ensures e.InvalidLength? <==> |s| != 32 && |s| != 36 && |s| != 38 && |s| != 45
    ensures e.InvalidLength? ==> e.length == |s|
    ensures e.InvalidUrnPrefix? <==> |s| == 45 && !EqualFoldAscii(s[..9], "urn:uuid:")
    ensures e.InvalidUrnPrefix? ==> e.prefix == s[..9]
  {
    if |s| == 45 && !EqualFoldAscii(s[..9], "urn:uuid:") then InvalidUrnPrefix(s[..9])
    else if |s| == 32 || |s| == 36 || |s| == 38 || |s| == 45 then InvalidFormat
    else InvalidLength(|s|)
  }

  /** `%q` of a string: in double quotes, with quotes and backslashes escaped. */
  function Quote(s: string): (q: string)
    ensures |q| >= |s| + 2 && q[0] == '"' && q[|q| - 1] == '"'
  {
    "\"" + Escaped(s) + "\""
  }

  function Escaped(s: string): (r: string)
    ensures |r| >= |s|
  {
    if s == [] then ""
    else (if s[0] == '"' || s[0] == '\\' then ['\\', s[0]] else [s[0]]) + Escaped(s[1..])
  }

  /** A string with no quote and no backslash needs no escaping. */
  lemma {:induction false} EscapedPlain(s: string)
    requires forall i :: 0 <= i < |s| ==> s[i] != '"' && s[i] != '\\'
    ensures Escaped(s) == s
  {
    if s != [] {
      EscapedPlain(s[1..]);
    }
  }

  /** Every length that no form of `uuid.Parse` accepts is refused with that length. */
  lemma RejectedLength(s: string)
    requires |s| != 32 && |s| != 36 && |s| != 38 && |s| != 45
    ensures Parse(s) == None
    ensures ParseFailure(s).Message() == "invalid UUID length: " + Numerals.NatToString(|s|)
  {
  }

  /** A 45-character string is refused for its prefix before its body is looked at. */
  lemma RejectedUrnPrefix(s: string)
    requires |s| == 45 && !EqualFoldAscii(s[..9], "urn:uuid:")
    ensures Parse(s) == None
    ensures ParseFailure(s).Message() == "invalid urn prefix: " + Quote(s[..9])
  {
  }

  /** Parsing the canonical rendering gives the identifier back. */
  lemma ParseToString(u: Uuid)
    ensures Parse(ToString(u)) == Some(u)
  {
    var s := ToString(u);
    var e0, e1, e2, e3, e4 := Hex.Encode(u[..4]), Hex.Encode(u[4..6]), Hex.Encode(u[6..8]),
      Hex.Encode(u[8..10]), Hex.Encode(u[10..]);
    assert s[..8] == e0 && s[9..13] == e1 && s[14..18] == e2 && s[19..23] == e3 && s[24..] == e4;
    assert u == u[..4] + u[4..6] + u[6..8] + u[8..10] + u[10..];
    Hex.EncodeAppend(u[..4], u[4..6]);
    Hex.EncodeAppend(u[..4] + u[4..6], u[6..8]);
    Hex.EncodeAppend(u[..4] + u[4..6] + u[6..8], u[8..10]);
    Hex.EncodeAppend(u[..4] + u[4..6] + u[6..8] + u[8..10], u[10..]);
    assert e0 + e1 + e2 + e3 + e4 == Hex.Encode(u);
    Hex.DecodeEncode(u);
  }

  lemma ToStringInjective(u: Uuid, v: Uuid)
    requires ToString(u) == ToString(v)
    ensures u == v
  {
    ParseToString(u);
    ParseToString(v);
  }
}
