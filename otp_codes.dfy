/**
 * How one-time codes are drawn: `randInt` of internal/usecases/generate_otp.go
 * (and its copy in internal/services/auth_service.go), and `GenerateOTP` with
 * `randIntEasy` and `randIntCrypto` of internal/infrastructure/utils/otp_utils.go.
 *
 * Randomness is a parameter: `read` is the byte `rand.Read` put in the
 * one-byte buffer, or None when the read failed; `draw` is the value
 * `rand.Int(rand.Reader, n)` returned, which that function promises lies in
 * [0, n), or None when it failed.
 */
module OtpCodes {
  import opened Wrappers
  import opened Numerals
  import Config

  const CodeMin: int := 100000
  const CodeMax: int := 999999

  /**
   * `min + int(b[0]) % (max-min+1)`. Go's `%` truncates toward zero; for the
   * non-negative byte this is Dafny's `%`, for either sign of the divisor.
   * A zero divisor panics in Go, so callers must avoid `max == min - 1`.
   */
  function RandInt(min: int, max: int, b: byte): (r: int)
    requires max - min + 1 != 0
    ensures min <= r <= min + 255
    ensures max >= min ==> r <= max
    ensures max - min >= 255 ==> r == min + b as int
  {
    min + (b as int) % (max - min + 1)
  }

  /** The byte the buffer holds after `rand.Read`: what was read, or the zero `make` left there when the read failed. */
  function ReadByte(read: Option<byte>): byte
  {
    if read.Some? then read.value else 0
  }

  /** `fmt.Sprintf("%06d", randInt(100000, 999999))` with the read error ignored, as both issuers do. */
  function IssuedCode(read: Option<byte>): (code: string)
    ensures |code| == 6 && AllDecimal(code)
    ensures ValueOf(code, 10) == Some(CodeMin + ReadByte(read) as int)
  {
    var n := RandInt(CodeMin, CodeMax, ReadByte(read));
    SixDigitRendering(n);
    ZeroPadded(n, 6)
  }

  /** Issued codes number 100000 to 100255: one byte selects among only 256 of the 900000 six-digit codes. */
  lemma IssuedCodeRange(read: Option<byte>)
    ensures var v := ValueOf(IssuedCode(read), 10).value; 100000 <= v <= 100255
    ensures read.None? ==> IssuedCode(read) == "100000"
  {
    if read.None? {
      assert IssuedCode(read) == ZeroPadded(100000, 6);
      SixDigitRendering(100000);
      LeastCodeNumeral();
    }
  }

  /** The numeral of the least code, built up one digit at a time. */
  lemma LeastCodeNumeral()
    ensures NatToString(100000) == "100000"
  {
    assert NatToString(1) == "1";
    assert NatToString(10) == NatToString(1) + "0";
    assert NatToString(100) == NatToString(10) + "0";
    assert NatToString(1000) == NatToString(100) + "0";
    assert NatToString(10000) == NatToString(1000) + "0";
    assert NatToString(100000) == NatToString(10000) + "0";
  }

  /** A failed random source (its error is passed on), or a strength that is neither "easy" nor "strong". */
  datatype OtpError = RandomFailure | UnknownStrength
  {
    /** The error's fixed text; a failed read carries `crypto/rand`'s own error, which is not modelled. */
    function Message(): (m: Option<string>)
      ensures UnknownStrength? <==> m == Some("unknown OTP strength: must be 'easy' or 'strong'")
      ensures RandomFailure? <==> m.None?
    {
      match this
      case RandomFailure => None
      case UnknownStrength => Some("unknown OTP strength: must be 'easy' or 'strong'")
    }
  }

  /** `randIntEasy`: `randInt`, but a failed read is reported. */
  function RandIntEasy(min: int, max: int, read: Option<byte>): (r: Result<int, OtpError>)
    requires max - min + 1 != 0
    ensures read.None? <==> r == Err(RandomFailure)
    ensures r.Ok? ==> r.value == RandInt(min, max, read.value)
  {
    match read
    case None => Err(RandomFailure)
    case Some(b) => Ok(RandInt(min, max, b))
  }

  /** `randIntCrypto`: `min` plus a uniform draw below `max - min + 1` (`rand.Int` panics unless that is positive). */
  function RandIntCrypto(min: int, max: int, draw: Option<int>): (r: Result<int, OtpError>)
    requires max >= min
    requires draw.Some? ==> 0 <= draw.value < max - min + 1
    ensures draw.None? <==> r == Err(RandomFailure)
    ensures r.Ok? ==> min <= r.value <= max && r.value == min + draw.value
  {
    match draw
    case None => Err(RandomFailure)
    case Some(n) => Ok(min + n)
  }

  /** `utils.GenerateOTP(strength)`: a six-digit code from the source the strength names. */
  function GenerateOtp(strength: string, easyRead: Option<byte>, strongDraw: Option<int>): (r: Result<string, OtpError>)
    requires strongDraw.Some? ==> 0 <= strongDraw.value < CodeMax - CodeMin + 1
    ensures strength != Config.OtpEasy && strength != Config.OtpStrong <==> r == Err(UnknownStrength)
    ensures strength == Config.OtpEasy ==> (r == Err(RandomFailure) <==> easyRead.None?)
    ensures strength == Config.OtpStrong ==> (r == Err(RandomFailure) <==> strongDraw.None?)
    ensures r.Ok? ==> |r.value| == 6 && AllDecimal(r.value)
    ensures r.Ok? && strength == Config.OtpEasy ==> ValueOf(r.value, 10) == Some(CodeMin + easyRead.value as int)
    ensures r.Ok? && strength == Config.OtpStrong ==> ValueOf(r.value, 10) == Some(CodeMin + strongDraw.value)
  {
    if strength == Config.OtpEasy then
      match RandIntEasy(CodeMin, CodeMax, easyRead)
      case Err(e) => Err(e)
      case Ok(n) => SixDigitRendering(n); Ok(ZeroPadded(n, 6))
    else if strength == Config.OtpStrong then
      match RandIntCrypto(CodeMin, CodeMax, strongDraw)
      case Err(e) => Err(e)
      case Ok(n) => SixDigitRendering(n); Ok(ZeroPadded(n, 6))
    else Err(UnknownStrength)
  }

  /** The easy codes lie in 100000..100255, the strong ones anywhere in 100000..999999. */
  lemma GenerateOtpRanges(strength: string, easyRead: Option<byte>, strongDraw: Option<int>)
    requires strongDraw.Some? ==> 0 <= strongDraw.value < CodeMax - CodeMin + 1
    requires GenerateOtp(strength, easyRead, strongDraw).Ok?
    ensures var v := ValueOf(GenerateOtp(strength, easyRead, strongDraw).value, 10).value;
      && CodeMin <= v <= CodeMax
      && (strength == Config.OtpEasy ==> v <= CodeMin + 255)
  {
  }

  /** Every six-digit number is a strong code for some draw. */
  lemma StrongCodesCoverRange(n: int)
    requires CodeMin <= n <= CodeMax
    ensures ValueOf(GenerateOtp(Config.OtpStrong, None, Some(n - CodeMin)).value, 10) == Some(n)
  {
  }
}
