/**
 * Positional numerals in bases up to 16: the digit alphabet of `strconv.Itoa`,
 * `fmt.Sprintf("%06d", …)` and `encoding/hex`, with the parsing direction used
 * to prove that the renderings are injective.
 */
module Numerals {
  import opened Wrappers

  const LowerDigits: string := "0123456789abcdef"

  predicate IsDecimalDigit(c: char) { '0' <= c <= '9' }

  predicate IsLowerHexDigit(c: char) { '0' <= c <= '9' || 'a' <= c <= 'f' }

  predicate AllDecimal(s: string) { forall i :: 0 <= i < |s| ==> IsDecimalDigit(s[i]) }

  function Pow(base: nat, k: nat): (r: nat)
    ensures base >= 1 ==> r >= 1
  {
    if k == 0 then 1 else base * Pow(base, k - 1)
  }

  /** The lower-case character of digit `d`. */
  function DigitChar(d: int): (c: char)
    requires 0 <= d < 16
    ensures IsLowerHexDigit(c)
    ensures d < 10 <==> IsDecimalDigit(c)
  {
    LowerDigits[d]
  }

  /** The value of a hexadecimal digit in either case, as `encoding/hex` and `uuid.Parse` read it. */
  function DigitValue(c: char): (r: Option<int>)
    ensures r.Some? ==> 0 <= r.value < 16
    ensures r.Some? && r.value < 10 <==> IsDecimalDigit(c)
  {
    if '0' <= c <= '9' then Some(c as int - '0' as int)
    else if 'a' <= c <= 'f' then Some(c as int - 'a' as int + 10)
    else if 'A' <= c <= 'F' then Some(c as int - 'A' as int + 10)
    else None
  }

  lemma DigitRoundTrip(d: int)
    requires 0 <= d < 16
    ensures DigitValue(DigitChar(d)) == Some(d)
  {
  }

  /** Exactly `width` digits of `n` in `base`, most significant first. */
  function FixedWidth(n: nat, base: nat, width: nat): (s: string)
    requires 2 <= base <= 16
    ensures |s| == width
    ensures forall i :: 0 <= i < |s| ==> DigitValue(s[i]).Some? && DigitValue(s[i]).value < base
    ensures forall i :: 0 <= i < |s| ==> IsLowerHexDigit(s[i])
  {
    if width == 0 then "" else FixedWidth(n / base, base, width - 1) + [DigitChar(n % base)]
  }

  /** The number denoted by `s` in `base`, or None when a character is not a digit of that base. */
  function ValueOf(s: string, base: nat): (r: Option<nat>)
    requires 2 <= base <= 16
    ensures r.Some? <==> forall i :: 0 <= i < |s| ==> DigitValue(s[i]).Some? && DigitValue(s[i]).value < base
  {
    if s == [] then Some(0)
    else
      match ValueOf(s[..|s| - 1], base)
      case None => None
      case Some(v) =>
        var d := DigitValue(s[|s| - 1]);
        if d.Some? && d.value < base then Some(v * base + d.value) else None
  }

  lemma {:induction false} ValueOfFixedWidth(n: nat, base: nat, width: nat)
    requires 2 <= base <= 16
    requires n < Pow(base, width)
    ensures ValueOf(FixedWidth(n, base, width), base) == Some(n)
    decreases width
  {
    if width > 0 {
      QuotientBelowPow(n, base, width);
      ValueOfFixedWidth(n / base, base, width - 1);
      FixedWidthStep(n, base, width);
    }
  }

  /** One more digit: if the leading `width - 1` digits read back as `n / base`, all `width` read back as `n`. */
  lemma FixedWidthStep(n: nat, base: nat, width: nat)
    requires 2 <= base <= 16 && width > 0
    requires ValueOf(FixedWidth(n / base, base, width - 1), base) == Some(n / base)
    ensures ValueOf(FixedWidth(n, base, width), base) == Some(n)
  {
    var q, d := n / base, n % base;
    var init := FixedWidth(q, base, width - 1);
    assert ValueOf(init + [DigitChar(d)], base) == Some(q * base + d) by {
      DigitRoundTrip(d);
      ValueOfSnoc(init, DigitChar(d), base, q, d);
    }
    assert q * base + d == n by {
      DivMod(n, base);
    }
    assert FixedWidth(n, base, width) == init + [DigitChar(d)];
  }

  /** Appending a digit multiplies the value by the base and adds the digit. */
  lemma ValueOfSnoc(s: string, c: char, base: nat, v: nat, d: nat)
    requires 2 <= base <= 16
    requires ValueOf(s, base) == Some(v) && DigitValue(c) == Some(d) && d < base
    ensures ValueOf(s + [c], base) == Some(v * base + d)
  {
    assert (s + [c])[..|s|] == s;
  }

  lemma DivMod(n: nat, b: nat)
    requires b >= 1
    ensures (n / b) * b + n % b == n
  {
  }

  lemma QuotientBelowPow(n: nat, base: nat, width: nat)
    requires base >= 1 && width >= 1 && n < Pow(base, width)
    ensures n / base < Pow(base, width - 1)
  {
    QuotientBound(n, base, Pow(base, width - 1));
  }

  lemma QuotientBound(n: nat, b: nat, p: nat)
    requires b >= 1 && n < b * p
    ensures n / b < p
  {
    DivMod(n, b);
  }

  /** `strconv.Itoa` of a non-negative integer: the shortest decimal numeral. */
  function NatToString(n: nat): (s: string)
    ensures |s| >= 1 && AllDecimal(s)
    ensures s[0] == '0' ==> n == 0
  {
    if n < 10 then [DigitChar(n)] else NatToString(n / 10) + [DigitChar(n % 10)]
  }

  /** `strconv.Itoa` / `%d` of any integer: a minus sign, then the magnitude. */
  function IntToString(i: int): (s: string)
    ensures |s| >= 1
    ensures i >= 0 <==> IsDecimalDigit(s[0])
    ensures i < 0 <==> s[0] == '-'
  {
    if i < 0 then "-" + NatToString(-i) else NatToString(i)
  }

  lemma {:induction false} ValueOfNatToString(n: nat)
    ensures ValueOf(NatToString(n), 10) == Some(n)
  {
    if n >= 10 {
      ValueOfNatToString(n / 10);
      NatToStringStep(n);
    } else {
      DigitRoundTrip(n);
    }
  }

  /** One more digit: if the numeral of `n / 10` reads back, so does that of `n`. */
  lemma NatToStringStep(n: nat)
    requires n >= 10
    requires ValueOf(NatToString(n / 10), 10) == Some(n / 10)
    ensures ValueOf(NatToString(n), 10) == Some(n)
  {
    var q, d := n / 10, n % 10;
    var init := NatToString(q);
    assert ValueOf(init + [DigitChar(d)], 10) == Some(q * 10 + d) by {
      DigitRoundTrip(d);
      ValueOfSnoc(init, DigitChar(d), 10, q, d);
    }
    assert q * 10 + d == n by {
      DivMod(n, 10);
    }
    assert NatToString(n) == init + [DigitChar(d)];
  }

  /** Reads back `IntToString`: an optional minus sign and at least one decimal digit. */
  function ParseInt(s: string): (r: Option<int>)
  {
    if |s| >= 2 && s[0] == '-' && AllDecimal(s[1..]) then Some(-(ValueOf(s[1..], 10).value as int))
    else if |s| >= 1 && AllDecimal(s) then Some(ValueOf(s, 10).value as int)
    else None
  }

  lemma ParseIntToString(i: int)
    ensures ParseInt(IntToString(i)) == Some(i)
  {
    var s := IntToString(i);
    if i < 0 {
      assert s[1..] == NatToString(-i);
      ValueOfNatToString(-i);
      assert s[0] == '-' && AllDecimal(s[1..]);
    } else {
      ValueOfNatToString(i);
      assert s[0] != '-';
    }
  }

  lemma IntToStringInjective(i: int, j: int)
    requires IntToString(i) == IntToString(j)
    ensures i == j
  {
    ParseIntToString(i);
    ParseIntToString(j);
  }

  /** The number of decimal digits is fixed by the decade `n` lies in. */
  lemma {:induction false} NatToStringLength(n: nat, k: nat)
    requires k >= 1
    requires Pow(10, k - 1) <= n < Pow(10, k)
    ensures |NatToString(n)| == k
    decreases k
  {
    if k > 1 {
      NatToStringLength(n / 10, k - 1);
    }
  }

  /** `fmt.Sprintf("%0{width}d", n)` for a non-negative `n`: the numeral left-padded with '0'. */
  function ZeroPadded(n: nat, width: nat): (s: string)
    ensures AllDecimal(s)
    ensures |s| == if |NatToString(n)| >= width then |NatToString(n)| else width
  {
    var digits := NatToString(n);
    if |digits| >= width then digits else seq(width - |digits|, _ => '0') + digits
  }

  /** `%06d` of a number of six digits is its plain numeral, whose value is the number. */
  lemma SixDigitRendering(n: nat)
    requires 100000 <= n <= 999999
    ensures ZeroPadded(n, 6) == NatToString(n)
    ensures |ZeroPadded(n, 6)| == 6
    ensures ValueOf(ZeroPadded(n, 6), 10) == Some(n)
  {
    assert Pow(10, 5) == 100000 && Pow(10, 6) == 1000000;
    NatToStringLength(n, 6);
    ValueOfNatToString(n);
  }
}
