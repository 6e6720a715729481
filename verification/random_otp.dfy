/**
 The code generator of the OTP service: `Math.floor(100000 + Math.random() * 900000)`
 written out in decimal. The draw of `Math.random()` is an input, taken as the exact
 rational `num / den` in [0, 1); with exact arithmetic the floor of
 `100000 + r * 900000` is `100000 + (num * 900000) / den`.
 */
module RandomOtp {
  import opened Decimal

  /** Smallest code the generator yields. */
  const OtpBase: nat := 100000
  /** Number of distinct codes the generator yields. */
  const OtpSpan: nat := 900000

  /** One value of `Math.random()`, as the fraction num / den. */
  datatype Draw = Draw(num: nat, den: nat) {
    /** `Math.random()` lies in [0, 1). */
    predicate Valid() {
      num < den
    }
  }

  /** The shape of every code the service issues: six ASCII digits, the first not zero. */
  predicate IsOtpCode(s: string) {
    |s| == 6 && AllDigits(s) && s[0] != '0'
  }

  /** floor(OtpBase + r * OtpSpan) for r = num / den. */
  function OtpValue(d: Draw): (v: nat)
    requires d.Valid()
    ensures OtpBase <= v < OtpBase + OtpSpan
  {
    OtpBase + (d.num * OtpSpan) / d.den
  }

  /** generateRandomOtp: the decimal string of the drawn value, always a six-digit code. */
  function GenerateRandomOtp(d: Draw): (code: string)
    requires d.Valid()
    ensures IsOtpCode(code)
    ensures ParseDigits(code) == OtpValue(d)
  {
    var v := OtpValue(d);
    NatToStringLength(v, 5);
    ParseNatToString(v);
    NatToString(v)
  }

  /** Every value in [100000, 999999] is produced by some draw: the draws k / 900000 hit them all. */
  lemma EveryValueDrawn(v: nat)
    requires OtpBase <= v < OtpBase + OtpSpan
    ensures OtpValue(Draw(v - OtpBase, OtpSpan)) == v
  {
  }

  /** A string is a possible generated code exactly when it has the six-digit shape. */
  lemma GeneratedCodesAreOtpCodes(code: string)
    ensures IsOtpCode(code) <==> exists d: Draw :: d.Valid() && GenerateRandomOtp(d) == code
  {
    if IsOtpCode(code) {
      var v := ParseDigits(code);
      ParseLeadingNonzero(code);
      ParseBelowPow10(code);
      assert Pow10(|code| - 1) == OtpBase && Pow10(|code|) == OtpBase + OtpSpan;
      NatToStringParse(code);
      EveryValueDrawn(v);
      var d := Draw(v - OtpBase, OtpSpan);
      assert GenerateRandomOtp(d) == NatToString(v) == code;
    }
  }

}
