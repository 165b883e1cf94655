/**
 * Signed tokens: a JOSE header, a claims object and a signature, in a
 * three-segment compact form separated by '.' (the shape of the JWS compact
 * serialisation used for JWTs, section 3.1 of RFC 7515).
 *
 * The segment encoding is not base64url-of-JSON: each string is written as six
 * lower-case hex digits per code point, closed by '~', and the signature as
 * base16. What the model relies on is only what the real serialisation also
 * guarantees: it is injective, and parsing a serialisation yields the token
 * and the exact signing input back (ParseSerialize).
 */
module JwtCodec {
  import opened Wrappers
  import opened Numerals
  import Hex

  /** A JSON value as `encoding/json` yields it inside `jwt.MapClaims`; numbers are whole. */
  datatype Json = JString(s: string) | JNumber(n: int) | JBool(b: bool) | JNull

  /** The members of the claims object as written, in order. */
  type Members = seq<(string, Json)>

  /** `jwt.MapClaims`: the claims object as `encoding/json` decodes it into a map. */
  type Claims = map<string, Json>

  /** The map a member list decodes to: every key present, and a repeated key's last value wins. */
  function ClaimsOf(m: Members): Claims
  {
    if m == [] then map[] else ClaimsOf(m[..|m| - 1])[m[|m| - 1].0 := m[|m| - 1].1]
  }

  /** The keys of the map are the keys of the members, and the last member's binding survives. */
  lemma {:induction false} ClaimsOfKeys(m: Members)
    ensures forall i :: 0 <= i < |m| ==> m[i].0 in ClaimsOf(m)
    ensures forall k :: k in ClaimsOf(m) ==> exists i :: 0 <= i < |m| && m[i].0 == k
    ensures m != [] ==> ClaimsOf(m)[m[|m| - 1].0] == m[|m| - 1].1
  {
    if m != [] {
      var init := m[..|m| - 1];
      ClaimsOfKeys(init);
      assert forall i :: 0 <= i < |init| ==> init[i] == m[i];
    }
  }

  /** Appending a member rebinds its key and keeps every other binding. */
  lemma ClaimsOfSnoc(m: Members, k: string, v: Json)
    ensures ClaimsOf(m + [(k, v)]) == ClaimsOf(m)[k := v]
  {
    assert (m + [(k, v)])[..|m|] == m;
  }

  datatype Header = Header(alg: string)

  datatype Token = Token(header: Header, members: Members, signature: seq<byte>)

  // ---- strings ------------------------------------------------------------

  function CharCode(c: char): (s: string)
    ensures |s| == 6
  {
    FixedWidth(c as nat, 16, 6)
  }

  function TextBody(s: string): (r: string)
    ensures forall i :: 0 <= i < |r| ==> IsLowerHexDigit(r[i])
  {
    if s == [] then "" else CharCode(s[0]) + TextBody(s[1..])
  }

  function EncText(s: string): string
  {
    TextBody(s) + "~"
  }

  function CharOf(n: int): Option<char>
  {
    if 0 <= n < 0xD800 || 0xE000 <= n < 0x11_0000 then Some(n as char) else None
  }

  function ParseText(s: string): (r: Option<(string, string)>)
    ensures r.Some? ==> |r.value.1| < |s| && r.value.1 == s[|s| - |r.value.1|..]
  {
    if s == [] then None
    else if s[0] == '~' then Some(("", s[1..]))
    else if |s| < 6 then None
    else
      var v := ValueOf(s[..6], 16);
      var c := if v.Some? then CharOf(v.value) else None;
      if c.None? then None
      else
        match ParseText(s[6..])
        case None => None
        case Some((t, rest)) => Some(([c.value] + t, rest))
  }

  lemma {:induction false} ParseEncText(t: string, rest: string)
    ensures ParseText(EncText(t) + rest) == Some((t, rest))
  {
    var s := EncText(t) + rest;
    if t == [] {
      assert s == "~" + rest;
    } else {
      var code := CharCode(t[0]);
      assert EncText(t) == code + EncText(t[1..]);
      assert s == code + (EncText(t[1..]) + rest);
      assert s[..6] == code;
      assert s[6..] == EncText(t[1..]) + rest;
      assert Pow(16, 6) == 0x100_0000;
      ValueOfFixedWidth(t[0] as nat, 16, 6);
      assert CharOf(t[0] as int) == Some(t[0]);
      ParseEncText(t[1..], rest);
      assert [t[0]] + t[1..] == t;
    }
  }

  // ---- JSON values and claims ---------------------------------------------

  function EncJson(v: Json): string
  {
    match v
    case JString(s) => "s" + EncText(s)
    case JNumber(n) => "n" + EncText(IntToString(n))
    case JBool(b) => if b then "t" else "f"
    case JNull => "z"
  }

  function ParseJson(s: string): (r: Option<(Json, string)>)
    ensures r.Some? ==> |r.value.1| < |s| && r.value.1 == s[|s| - |r.value.1|..]
  {
    if s == [] then None
    else if s[0] == 's' then
      match ParseText(s[1..])
      case None => None
      case Some((t, rest)) => Some((JString(t), rest))
    else if s[0] == 'n' then
      match ParseText(s[1..])
      case None => None
      case Some((t, rest)) =>
        match ParseInt(t)
        case None => None
        case Some(n) => Some((JNumber(n), rest))
    else if s[0] == 't' then Some((JBool(true), s[1..]))
    else if s[0] == 'f' then Some((JBool(false), s[1..]))
    else if s[0] == 'z' then Some((JNull, s[1..]))
    else None
  }

  lemma {:induction false} ParseEncJson(v: Json, rest: string)
    ensures ParseJson(EncJson(v) + rest) == Some((v, rest))
  {
    match v
    case JString(t) => ParseEncString(t, rest);
    case JNumber(n) => ParseEncNumber(n, rest);
    case JBool(b) =>
    case JNull =>
  }

  lemma ParseEncString(t: string, rest: string)
    ensures ParseJson(EncJson(JString(t)) + rest) == Some((JString(t), rest))
  {
    var s := EncJson(JString(t)) + rest;
    assert s[0] == 's';
    assert s[1..] == EncText(t) + rest;
    ParseEncText(t, rest);
  }

  lemma ParseEncNumber(n: int, rest: string)
    ensures ParseJson(EncJson(JNumber(n)) + rest) == Some((JNumber(n), rest))
  {
    var t := IntToString(n);
    var s := EncJson(JNumber(n)) + rest;
    Assoc("n", EncText(t), rest);
    ParseEncText(t, rest);
    ParseIntToString(n);
    ParseJsonNumber(s, t, rest, n);
  }

  /** One step of `ParseJson` on a number: the tag, its text, and the integer the text denotes. */
  lemma ParseJsonNumber(s: string, t: string, rest: string, n: int)
    requires s != [] && s[0] == 'n' && ParseText(s[1..]) == Some((t, rest)) && ParseInt(t) == Some(n)
    ensures ParseJson(s) == Some((JNumber(n), rest))
  {
  }

  function EncMembers(c: Members): string
  {
    if c == [] then "~" else "+" + (EncText(c[0].0) + (EncJson(c[0].1) + EncMembers(c[1..])))
  }

  function ParseMembers(s: string): (r: Option<(Members, string)>)
    ensures r.Some? ==> |r.value.1| < |s| && r.value.1 == s[|s| - |r.value.1|..]
    decreases |s|
  {
    if s == [] then None
    else if s[0] == '~' then Some(([], s[1..]))
    else if s[0] != '+' then None
    else
      match ParseText(s[1..])
      case None => None
      case Some((key, r1)) =>
        match ParseJson(r1)
        case None => None
        case Some((value, r2)) =>
          match ParseMembers(r2)
          case None => None
          case Some((more, rest)) => Some(([(key, value)] + more, rest))
  }

  lemma {:induction false} ParseEncMembers(c: Members, rest: string)
    ensures ParseMembers(EncMembers(c) + rest) == Some((c, rest))
  {
    var s := EncMembers(c) + rest;
    if c == [] {
      assert s == "~" + rest;
    } else {
      var e' := EncMembers(c[1..]);
      var tail := EncJson(c[0].1) + (e' + rest);
      EncMembersCons(c, rest);
      ParseEncText(c[0].0, tail);
      ParseEncJson(c[0].1, e' + rest);
      ParseEncMembers(c[1..], rest);
      ParseMembersCons(s, c[0].0, tail, c[0].1, e' + rest, c[1..], rest);
      assert [(c[0].0, c[0].1)] + c[1..] == c;
    }
  }

  /** A non-empty member list is '+', its first key, its first value, then the rest of the list. */
  lemma EncMembersCons(c: Members, rest: string)
    requires c != []
    ensures var s := EncMembers(c) + rest;
      s[0] == '+' && s[1..] == EncText(c[0].0) + (EncJson(c[0].1) + (EncMembers(c[1..]) + rest))
  {
    var e' := EncMembers(c[1..]);
    var j := EncJson(c[0].1);
    Assoc("+", EncText(c[0].0) + (j + e'), rest);
    Assoc(EncText(c[0].0), j + e', rest);
    Assoc(j, e', rest);
  }

  /** One step of `ParseMembers`: a '+', a key, a value, and the members that follow. */
  lemma ParseMembersCons(s: string, key: string, r1: string, value: Json, r2: string, more: Members, rest: string)
    requires s != [] && s[0] == '+'
    requires ParseText(s[1..]) == Some((key, r1))
    requires ParseJson(r1) == Some((value, r2))
    requires ParseMembers(r2) == Some((more, rest))
    ensures ParseMembers(s) == Some(([(key, value)] + more, rest))
  {
  }

  lemma Assoc(a: string, b: string, c: string)
    ensures (a + b) + c == a + (b + c)
  {
  }

  // ---- compact form -------------------------------------------------------

  /** The header and claims segments joined by '.': the bytes the signature covers. */
  function SigningInput(h: Header, c: Members): string
  {
    EncText(h.alg) + ("." + EncMembers(c))
  }

  function Serialize(t: Token): string
  {
    SigningInput(t.header, t.members) + ("." + Hex.Encode(t.signature))
  }

  /** A parsed token together with the signing input read from the string. */
  datatype Parsed = Parsed(token: Token, signingInput: string)

  function Parse(s: string): Option<Parsed>
  {
    match ParseText(s)
    case None => None
    case Some((alg, r1)) =>
      if r1 == [] || r1[0] != '.' then None
      else
        match ParseMembers(r1[1..])
        case None => None
        case Some((members, r2)) =>
          if r2 == [] || r2[0] != '.' then None
          else
            match Hex.Decode(r2[1..])
            case None => None
            case Some(sig) => Some(Parsed(Token(Header(alg), members, sig), s[..|s| - |r2|]))
  }

  /** Parsing a serialisation gives back the token and exactly the signing input it was signed over. */
  lemma {:induction false} ParseSerialize(t: Token)
    ensures Parse(Serialize(t)) == Some(Parsed(t, SigningInput(t.header, t.members)))
  {
    var a := EncText(t.header.alg);
    var b := EncMembers(t.members);
    var r2 := "." + Hex.Encode(t.signature);
    var input := SigningInput(t.header, t.members);
    var s := Serialize(t);
    Assoc(a, "." + b, r2);
    Assoc(".", b, r2);
    var r1 := "." + (b + r2);
    assert s == a + r1;
    ParseEncText(t.header.alg, r1);
    assert r1[1..] == b + r2;
    ParseEncMembers(t.members, r2);
    assert r2[1..] == Hex.Encode(t.signature);
    Hex.DecodeEncode(t.signature);
    assert s == input + r2;
    assert s[..|s| - |r2|] == input;
  }

  /** Distinct tokens serialise to distinct strings. */
  lemma SerializeInjective(t: Token, u: Token)
    requires Serialize(t) == Serialize(u)
    ensures t == u
  {
    ParseSerialize(t);
    ParseSerialize(u);
  }
}
