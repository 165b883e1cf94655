/**
 * `GenerateString` of internal/infrastructure/utils/generate_utils.go: a
 * buffer of `length` bytes, each a character of `charset` picked by
 * `seededRand.Intn(len(charset))`. The generator's picks are the parameter
 * `draws`, one index per byte, each below the charset's length as `Intn`
 * guarantees.
 */
module GenerateUtils {
  /** The 62 letters and digits the generator picks from: a-z, A-Z, 0-9. */
  const Charset: string := LowerLetters + UpperLetters + Digits

  const LowerLetters: string := "abcdefghijklmnopqrstuvwxyz"
  const UpperLetters: string := "ABCDEFGHIJKLMNOPQRSTUVWXYZ"
  const Digits: string := "0123456789"

  predicate IsAlnumAscii(c: char)
  {
    'a' <= c <= 'z' || 'A' <= c <= 'Z' || '0' <= c <= '9'
  }

  /** The character at position `i` of `Charset`, by its range. */
  function CharsetAt(i: int): char
    requires 0 <= i < 62
  {
    if i < 26 then ('a' as int + i) as char
    else if i < 52 then ('A' as int + (i - 26)) as char
    else ('0' as int + (i - 52)) as char
  }

  /** The string the draws pick out of `charset`. */
  function Picked(charset: string, draws: seq<nat>): string
    requires forall i :: 0 <= i < |draws| ==> draws[i] < |charset|
  {
    seq(|draws|, i requires 0 <= i < |draws| => charset[draws[i]])
  }

  /** `generateStringWithCharset`: the bytes filled in one by one, then turned into a string. */
  method GenerateStringWithCharset(length: nat, charset: string, draws: seq<nat>) returns (s: string)
    requires |draws| == length
    requires forall i :: 0 <= i < |draws| ==> draws[i] < |charset|
    ensures s == Picked(charset, draws)
    ensures |s| == length
    ensures forall i :: 0 <= i < |s| ==> s[i] in charset
  {
    var b := new char[length];
    for i := 0 to length
      invariant forall j :: 0 <= j < i ==> b[j] == charset[draws[j]]
    {
      b[i] := charset[draws[i]];
    }
    s := b[..];
  }

  /** `GenerateString`: `generateStringWithCharset` over `Charset`. */
  method GenerateString(length: nat, draws: seq<nat>) returns (s: string)
    requires |draws| == length
    requires forall i :: 0 <= i < |draws| ==> draws[i] < |Charset|
    ensures s == Picked(Charset, draws)
    ensures |s| == length && forall i :: 0 <= i < |s| ==> IsAlnumAscii(s[i])
  {
    s := GenerateStringWithCharset(length, Charset, draws);
    CharsetShape();
  }

  /** The lower-case letters run in order. */
  lemma LowerLettersIndex(i: int)
    requires 0 <= i < 26
    ensures LowerLetters[i] == ('a' as int + i) as char
  {
  }

  /** The upper-case letters run in order. */
  lemma UpperLettersIndex(i: int)
    requires 0 <= i < 26
    ensures UpperLetters[i] == ('A' as int + i) as char
  {
  }

  /** The digits run in order. */
  lemma DigitsIndex(i: int)
    requires 0 <= i < 10
    ensures Digits[i] == ('0' as int + i) as char
  {
  }

  /** `Charset` is exactly the ASCII letters and digits, 62 of them, each once. */
  lemma CharsetShape()
    ensures |Charset| == 62
    ensures forall i :: 0 <= i < 62 ==> Charset[i] == CharsetAt(i)
    ensures forall i, j :: 0 <= i < j < 62 ==> Charset[i] != Charset[j]
    ensures forall c :: c in Charset <==> IsAlnumAscii(c)
  {
    forall i | 0 <= i < 62
      ensures Charset[i] == CharsetAt(i)
    {
      CharsetIndex(i);
    }
    forall i, j | 0 <= i < j < 62
      ensures Charset[i] != Charset[j]
    {
      CharsetIndex(i);
      CharsetIndex(j);
    }
    CharsetMember();
  }

  /** Position `i` of `Charset` holds `CharsetAt(i)`. */
  lemma CharsetIndex(i: int)
    requires 0 <= i < 62
    ensures |Charset| == 62 && Charset[i] == CharsetAt(i)
  {
    if i < 26 {
      LowerLettersIndex(i);
    } else if i < 52 {
      UpperLettersIndex(i - 26);
    } else {
      DigitsIndex(i - 52);
    }
  }

  /** The characters of `Charset` are exactly the ASCII letters and digits. */
  lemma CharsetMember()
    ensures forall c :: c in Charset <==> IsAlnumAscii(c)
  {
    forall i | 0 <= i < |Charset|
      ensures IsAlnumAscii(Charset[i])
    {
      CharsetIndex(i);
    }
    OnlyAlnum(Charset);
    forall c | IsAlnumAscii(c)
      ensures c in Charset
    {
      AlnumInCharset(c);
    }
  }

  /** A string whose every position holds a letter or digit has no other members. */
  lemma OnlyAlnum(s: string)
    requires forall i :: 0 <= i < |s| ==> IsAlnumAscii(s[i])
    ensures forall c :: c in s ==> IsAlnumAscii(c)
  {
  }

  lemma AlnumInCharset(c: char)
    requires IsAlnumAscii(c)
    ensures c in Charset
  {
    var i := if 'a' <= c <= 'z' then c as int - 'a' as int
             else if 'A' <= c <= 'Z' then c as int - 'A' as int + 26
             else c as int - '0' as int + 52;
    CharsetIndex(i);
  }

  lemma EmptyLength()
    ensures Picked(Charset, []) == ""
  {
  }

  /** Every pick is a letter or digit, and different picks give different characters. */
  lemma PickedFaithful(draws: seq<nat>, other: seq<nat>)
    requires |draws| == |other|
    requires forall i :: 0 <= i < |draws| ==> draws[i] < 62 && other[i] < 62
    ensures forall i :: 0 <= i < |draws| ==> IsAlnumAscii(Picked(Charset, draws)[i])
    ensures Picked(Charset, draws) == Picked(Charset, other) <==> draws == other
  {
    CharsetShape();
    if Picked(Charset, draws) == Picked(Charset, other) {
      forall i | 0 <= i < |draws|
        ensures draws[i] == other[i]
      {
        assert Picked(Charset, draws)[i] == Charset[draws[i]];
        assert Picked(Charset, other)[i] == Charset[other[i]];
      }
    }
  }
}
