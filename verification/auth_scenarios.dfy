/**
 Concrete walks through the OTP flow: the login scenarios the service is meant to
 support, stated on the model and proved for every draw, clock reading and notifier
 outcome.
 */
module AuthScenarios {
  import opened Options
  import opened RandomOtp
  import opened AuthService

  const WrongCode := "000000"

  /** "000000" is never an issued code, so it is always a wrong guess. */
  lemma WrongCodeIsNeverIssued(draw: Draw)
    requires draw.Valid()
    ensures GenerateRandomOtp(draw) != WrongCode
  {
  }

  /**
   Three wrong guesses report 2, 1 and then no attempts left (worded as in
   `RemainingAttemptsMessages`) and keep the record with three attempts; the fourth call fails as exhausted even with the right code and
   removes the record, so a fifth finds nothing pending.
   */
  lemma ThreeWrongGuessesExhaustTheCode(m: string, draw: Draw, t: int, delivery: Delivery)
    requires ValidMobile(m) && draw.Valid()
    ensures
      var s0 := GenerateOtp(map[], Some(m), draw, t, delivery).store;
      var code := GenerateRandomOtp(draw);
      var v1 := VerifyOtp(s0, Some(m), Some(WrongCode), t + 1);
      var v2 := VerifyOtp(v1.store, Some(m), Some(WrongCode), t + 2);
      var v3 := VerifyOtp(v2.store, Some(m), Some(WrongCode), t + 3);
      var v4 := VerifyOtp(v3.store, Some(m), Some(code), t + 4);
      var v5 := VerifyOtp(v4.store, Some(m), Some(code), t + 5);
      && v1.outcome == InvalidCode(2) && v2.outcome == InvalidCode(1) && v3.outcome == InvalidCode(0)
      && VerifyReply(v3.outcome).message == NoAttemptsLeftMessage
      && m in v3.store && v3.store[m].attempts == MaxVerifyAttempts
      && v4.outcome == AttemptsExhausted && !VerifyReply(v4.outcome).success
      && v5.outcome == NoPendingOtp
  {
    var code := GenerateRandomOtp(draw);
    var expiresAt := t + OtpTtlMillis;
    WrongCodeIsNeverIssued(draw);
    var s0 := GenerateOtp(map[], Some(m), draw, t, delivery).store;
    assert m in s0 && s0[m] == OtpRecord(code, expiresAt, 0);
    WrongGuess(s0, m, WrongCode, t + 1);
    var v1 := VerifyOtp(s0, Some(m), Some(WrongCode), t + 1);
    WrongGuess(v1.store, m, WrongCode, t + 2);
    var v2 := VerifyOtp(v1.store, Some(m), Some(WrongCode), t + 2);
    WrongGuess(v2.store, m, WrongCode, t + 3);
    var v3 := VerifyOtp(v2.store, Some(m), Some(WrongCode), t + 3);
    var v4 := VerifyOtp(v3.store, Some(m), Some(code), t + 4);
    assert v4.outcome == AttemptsExhausted && m !in v4.store;
  }

  /** The wording of the rejection after the first and the second wrong guess. */
  lemma RemainingAttemptsMessages()
    ensures VerifyReply(InvalidCode(2)).message == "Invalid OTP. 2 attempts remaining."
    ensures VerifyReply(InvalidCode(1)).message == "Invalid OTP. 1 attempts remaining."
  {
  }

  /** One wrong guess against a live record: one more attempt counted, nothing else changed. */
  lemma WrongGuess(s: Store, m: string, code: string, now: int)
    requires m != "" && code != "" && m in s && Live(s[m], now) && s[m].otp != code
    ensures VerifyOtp(s, Some(m), Some(code), now).outcome == InvalidCode(MaxVerifyAttempts - s[m].attempts - 1)
    ensures m in VerifyOtp(s, Some(m), Some(code), now).store
    ensures VerifyOtp(s, Some(m), Some(code), now).store[m] == s[m].(attempts := s[m].attempts + 1)
    ensures AgreeOutside(s, VerifyOtp(s, Some(m), Some(code), now).store, m)
  {
  }

  /** The right code logs in once; the same code a second time finds nothing pending. */
  lemma CodeIsSingleUse(m: string, draw: Draw, t: int, delivery: Delivery, later: int)
    requires ValidMobile(m) && draw.Valid() && later <= t + OtpTtlMillis
    ensures
      var s0 := GenerateOtp(map[], Some(m), draw, t, delivery).store;
      var code := GenerateRandomOtp(draw);
      var v1 := VerifyOtp(s0, Some(m), Some(code), later);
      var v2 := VerifyOtp(v1.store, Some(m), Some(code), later);
      && v1.outcome == Verified(Token(m, later)) && VerifyReply(v1.outcome).success
      && v1.store == map[]
      && v2.outcome == NoPendingOtp
  {
  }

  /** The code is accepted up to and including its expiry instant and refused, and removed, one millisecond later. */
  lemma ExpiryIsStrict(m: string, draw: Draw, t: int, delivery: Delivery)
    requires ValidMobile(m) && draw.Valid()
    ensures
      var s0 := GenerateOtp(map[], Some(m), draw, t, delivery).store;
      var code := GenerateRandomOtp(draw);
      && VerifyOtp(s0, Some(m), Some(code), t + OtpTtlMillis).outcome.Verified?
      && VerifyOtp(s0, Some(m), Some(code), t + OtpTtlMillis + 1).outcome == Expired
      && VerifyOtp(s0, Some(m), Some(code), t + OtpTtlMillis + 1).store == map[]
  {
  }

  /** A new request in the middle of failed guesses replaces the record: attempts start again at zero. */
  lemma RequestResetsAttempts(m: string, d1: Draw, d2: Draw, t: int, t2: int, delivery: Delivery)
    requires ValidMobile(m) && d1.Valid() && d2.Valid()
    ensures
      var s0 := GenerateOtp(map[], Some(m), d1, t, delivery).store;
      var v1 := VerifyOtp(s0, Some(m), Some(WrongCode), t + 1);
      var v2 := VerifyOtp(v1.store, Some(m), Some(WrongCode), t + 2);
      var s1 := GenerateOtp(v2.store, Some(m), d2, t2, delivery).store;
      && m in v2.store && v2.store[m].attempts == 2
      && s1 == map[m := OtpRecord(GenerateRandomOtp(d2), t2 + OtpTtlMillis, 0)]
  {
    WrongCodeIsNeverIssued(d1);
  }

  /** A malformed number is refused and creates no record. */
  lemma MalformedNumberIsRefused(s: Store, draw: Draw, t: int, delivery: Delivery)
    requires draw.Valid()
    ensures
      var g := GenerateOtp(s, Some("invalid-phone"), draw, t, delivery);
      && g.outcome == InvalidNumber && g.store == s
      && GenerateReply(g.outcome) == Reply(false, InvalidNumberMessage, None)
  {
    assert !ValidMobile("invalid-phone") by {
      assert !Decimal.IsDigit("invalid-phone"[0]);
    }
  }

}
