/** Base16 encoding of byte strings (section 8 of RFC 4648, lower-case), as Go's `encoding/hex`. */
module Hex {
  import opened Wrappers
  import opened Numerals

  /** `hex.EncodeToString`: two lower-case digits per byte, high nibble first. */
  function Encode(bs: seq<byte>): (s: string)
    ensures |s| == 2 * |bs|
    ensures forall i :: 0 <= i < |s| ==> IsLowerHexDigit(s[i])
  {
    if bs == [] then "" else FixedWidth(bs[0] as nat, 16, 2) + Encode(bs[1..])
  }

  /** `hex.DecodeString`: digit pairs of either case; an odd length or a non-digit fails. */
  function Decode(s: string): (r: Option<seq<byte>>)
    ensures r.Some? ==> |r.value| == |s| / 2 && |s| % 2 == 0
  {
    if s == [] then Some([])
    else if |s| == 1 then None
    else
      var hi, lo := DigitValue(s[0]), DigitValue(s[1]);
      if hi.None? || lo.None? then None
      else
        match Decode(s[2..])
        case None => None
        case Some(rest) => Some([(hi.value * 16 + lo.value) as byte] + rest)
  }

  lemma EncodeAppend(a: seq<byte>, b: seq<byte>)
    ensures Encode(a + b) == Encode(a) + Encode(b)
  {
    if a != [] {
      assert (a + b)[0] == a[0];
      assert (a + b)[1..] == a[1..] + b;
      EncodeAppend(a[1..], b);
    } else {
      assert a + b == b;
    }
  }

  lemma {:induction false} DecodeEncode(bs: seq<byte>)
    ensures Decode(Encode(bs)) == Some(bs)
  {
    if bs != [] {
      var b := bs[0] as nat;
      var s := Encode(bs);
      assert s[..2] == FixedWidth(b, 16, 2) && s[2..] == Encode(bs[1..]);
      assert s[0] == DigitChar(b / 16) && s[1] == DigitChar(b % 16) by {
        PairDigits(b);
      }
      assert Decode(s[2..]) == Some(bs[1..]) by {
        DecodeEncode(bs[1..]);
      }
      DigitRoundTrip(b / 16);
      DigitRoundTrip(b % 16);
      DecodeCons(s, b / 16, b % 16, bs[1..]);
      assert [bs[0]] + bs[1..] == bs;
    }
  }

  /** The two digits of a byte: its high nibble, then its low nibble. */
  lemma PairDigits(b: nat)
    requires b < 256
    ensures FixedWidth(b, 16, 2) == [DigitChar(b / 16), DigitChar(b % 16)]
  {
    assert FixedWidth(b / 16, 16, 1) == FixedWidth(b / 16 / 16, 16, 0) + [DigitChar(b / 16 % 16)];
  }

  /** One step of `Decode`: a digit pair, then the bytes the rest decodes to. */
  lemma DecodeCons(s: string, hi: nat, lo: nat, rest: seq<byte>)
    requires |s| >= 2 && DigitValue(s[0]) == Some(hi) && DigitValue(s[1]) == Some(lo)
    requires Decode(s[2..]) == Some(rest)
    ensures Decode(s) == Some([(hi * 16 + lo) as byte] + rest)
  {
  }

  /** Distinct byte strings have distinct encodings. */
  lemma EncodeInjective(a: seq<byte>, b: seq<byte>)
    requires Encode(a) == Encode(b)
    ensures a == b
  {
    DecodeEncode(a);
    DecodeEncode(b);
  }
}
