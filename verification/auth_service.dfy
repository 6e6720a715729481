/**
 The OTP lifecycle manager of the backend auth service. It owns a store mapping a
 mobile number to its one pending OTP record and offers two operations:
 `GenerateOtp` (validate the number, issue a fresh code, replace any prior record,
 hand the code to the notifier) and `VerifyOtp` (check arguments, presence, expiry,
 attempts and the code, in that order). Each operation is one atomic transition from
 the old store to a new one; the clock, the random draw and the notifier's outcome
 are inputs.
 */
module AuthService {
  import opened Options
  import opened Decimal
  import opened RandomOtp

  const OtpExpiryMinutes: nat := 5
  const MaxVerifyAttempts: nat := 3
  /** Lifetime of a code in milliseconds, the unit of `Date.now()`. */
  const OtpTtlMillis: nat := OtpExpiryMinutes * 60 * 1000

  /** The pending OTP of one mobile number. */
  datatype OtpRecord = OtpRecord(otp: string, expiresAt: int, attempts: nat)

  /** The in-memory OTP store, keyed by mobile number. */
  type Store = map<string, OtpRecord>

  /** A mobile number the service accepts: 10 to 15 ASCII digits, nothing else. */
  predicate ValidMobile(s: string) {
    10 <= |s| <= 15 && AllDigits(s)
  }

  /** A string argument that JavaScript treats as given: present and not empty. */
  predicate Present(arg: Option<string>) {
    arg.Some? && arg.value != ""
  }

  /** Every record is keyed by a valid mobile number, holds a six-digit code and has spent at most the maximum of attempts. */
  predicate Inv(s: Store) {
    forall k :: k in s ==> ValidMobile(k) && IsOtpCode(s[k].otp) && s[k].attempts <= MaxVerifyAttempts
  }

  /** `s` and `t` hold the same records for every number other than `m`. */
  ghost predicate AgreeOutside(s: Store, t: Store, m: string) {
    forall k :: k != m ==> (k in s <==> k in t) && (k in s ==> s[k] == t[k])
  }

  // ---------------------------------------------------------------- replies

  /** The `{success, message, token?}` object both operations resolve to. */
  datatype Reply = Reply(success: bool, message: string, token: Option<Token>)

  /** The login token minted on a successful verification, bound to the number and the time of login. */
  datatype Token = Token(mobileNumber: string, issuedAt: int)

  // ---------------------------------------------------------------- generateOtp

  /** What the notifier's `sendWhatsAppMessage` did: resolved with a truthy `success`, resolved without one, or threw. */
  datatype Delivery = Delivered | Undelivered | Raised

  /** The message handed to the notifier. */
  datatype Notice = Notice(to: string, text: string)

  datatype GenerateOutcome = InvalidNumber | Generated(delivery: Delivery)

  datatype GenerateStep = GenerateStep(outcome: GenerateOutcome, notice: Option<Notice>, store: Store)

  const InvalidNumberMessage := "Valid mobile number is required (10-15 digits)."
  const DeliveredMessage := "OTP generated and WhatsApp notification sent (simulated)."
  const UndeliveredMessage := "OTP generated (WhatsApp failed, see logs)."
  const RaisedMessage := "OTP generated (WhatsApp encountered an exception, see logs)."
  const NoticePrefix := "Your OTP is: "

  /**
   generateOtp. An absent or malformed number fails and touches nothing. Otherwise the
   record for the number becomes a fresh code with a full lifetime and no attempts,
   whatever was there before, the code goes to the notifier, and the call succeeds
   however the notifier fares.
   */
  function GenerateOtp(s: Store, mobile: Option<string>, draw: Draw, now: int, delivery: Delivery): (r: GenerateStep)
    requires draw.Valid()
    ensures r.outcome.Generated? <==> mobile.Some? && ValidMobile(mobile.value)
    ensures r.outcome.InvalidNumber? ==> r.store == s && r.notice == None
    ensures r.outcome.Generated? ==>
      && r.outcome.delivery == delivery
      && mobile.value in r.store
      && r.store[mobile.value] == OtpRecord(GenerateRandomOtp(draw), now + OtpTtlMillis, 0)
      && IsOtpCode(r.store[mobile.value].otp)
      && AgreeOutside(s, r.store, mobile.value)
      && r.notice == Some(Notice(mobile.value, NoticePrefix + r.store[mobile.value].otp))
    ensures Inv(s) ==> Inv(r.store)
  {
    if mobile.None? || !ValidMobile(mobile.value) then
      GenerateStep(InvalidNumber, None, s)
    else
      var m := mobile.value;
      var otp := GenerateRandomOtp(draw);
      var record := OtpRecord(otp, now + OtpTtlMillis, 0);
      GenerateStep(Generated(delivery), Some(Notice(m, NoticePrefix + otp)), s[m := record])
  }

  /** The reply of generateOtp: success exactly when a code was issued, a message per notifier outcome, never a token. */
  function GenerateReply(o: GenerateOutcome): (r: Reply)
    ensures r.success <==> o.Generated?
    ensures r.token == None
    ensures o.Generated? && o.delivery == Delivered ==> r.message == DeliveredMessage
    ensures o.Generated? && o.delivery == Undelivered ==> r.message == UndeliveredMessage
    ensures o.Generated? && o.delivery == Raised ==> r.message == RaisedMessage
  {
    match o
    case InvalidNumber => Reply(false, InvalidNumberMessage, None)
    case Generated(Delivered) => Reply(true, DeliveredMessage, None)
    case Generated(Undelivered) => Reply(true, UndeliveredMessage, None)
    case Generated(Raised) => Reply(true, RaisedMessage, None)
  }

  /** The notifier is advisory: its outcome changes neither the store nor the success of the request, only the message. */
  lemma NotifierIsAdvisory(s: Store, mobile: Option<string>, draw: Draw, now: int, d1: Delivery, d2: Delivery)
    requires draw.Valid()
    ensures GenerateOtp(s, mobile, draw, now, d1).store == GenerateOtp(s, mobile, draw, now, d2).store
    ensures GenerateReply(GenerateOtp(s, mobile, draw, now, d1).outcome).success
         == GenerateReply(GenerateOtp(s, mobile, draw, now, d2).outcome).success
    ensures mobile.Some? && ValidMobile(mobile.value) && d1 != d2 ==>
      GenerateReply(GenerateOtp(s, mobile, draw, now, d1).outcome).message
      != GenerateReply(GenerateOtp(s, mobile, draw, now, d2).outcome).message
  {
  }

  // ---------------------------------------------------------------- verifyOtp

  datatype VerifyOutcome =
    | MissingArguments
    | NoPendingOtp
    | Expired
    | AttemptsExhausted
    | Verified(token: Token)
    | InvalidCode(remaining: nat)
  {
    /** The outcomes after which the record is gone for good. */
    predicate Terminal() {
      Expired? || AttemptsExhausted? || Verified?
    }
  }

  datatype VerifyStep = VerifyStep(outcome: VerifyOutcome, store: Store)

  /** A record still accepts guesses at time `now`: not past its expiry, attempts not used up. */
  predicate Live(e: OtpRecord, now: int) {
    now <= e.expiresAt && e.attempts < MaxVerifyAttempts
  }

  const MissingArgumentsMessage := "Mobile number and OTP are required."
  const NoPendingOtpMessage := "No OTP request found for this mobile number or OTP expired. Please request a new OTP."
  const ExpiredMessage := "OTP has expired. Please request a new one."
  const AttemptsExhaustedMessage := "Maximum verification attempts reached. Please request a new OTP."
  const VerifiedMessage := "OTP verified successfully. Login successful."
  const NoAttemptsLeftMessage := "Invalid OTP. No attempts remaining. Request a new OTP."

  /**
   verifyOtp. Missing arguments and an unknown number fail without touching the store.
   Otherwise, in this order: an expired record, a record whose attempts are used up, and a
   matching code each delete the record (the last one succeeding with a token); a wrong
   code only counts one more attempt against the record.
   */
  function VerifyOtp(s: Store, mobile: Option<string>, code: Option<string>, now: int): (r: VerifyStep)
    ensures !Present(mobile) || !Present(code) ==> r == VerifyStep(MissingArguments, s)
    ensures Present(mobile) && Present(code) && mobile.value !in s ==> r == VerifyStep(NoPendingOtp, s)
    ensures r.outcome.Verified? <==>
      Present(mobile) && Present(code) && mobile.value in s
      && Live(s[mobile.value], now) && s[mobile.value].otp == code.value
    ensures r.outcome.Verified? ==> r.outcome.token == Token(mobile.value, now)
    ensures Present(mobile) && Present(code) && mobile.value in s && now > s[mobile.value].expiresAt ==>
      r.outcome == Expired
    ensures (Present(mobile) && Present(code) && mobile.value in s && now <= s[mobile.value].expiresAt
             && s[mobile.value].attempts >= MaxVerifyAttempts) ==> r.outcome == AttemptsExhausted
    ensures (Present(mobile) && Present(code) && mobile.value in s && Live(s[mobile.value], now)
             && s[mobile.value].otp != code.value) ==> r.outcome.InvalidCode?
    ensures r.outcome.Terminal() ==> mobile.Some? && mobile.value in s && r.store == s - {mobile.value}
    ensures r.outcome.InvalidCode? ==>
      && Present(mobile) && mobile.value in s && Live(s[mobile.value], now)
      && Present(code) && s[mobile.value].otp != code.value
      && mobile.value in r.store
      && r.store[mobile.value] == s[mobile.value].(attempts := s[mobile.value].attempts + 1)
      && r.outcome.remaining == MaxVerifyAttempts - r.store[mobile.value].attempts
      && AgreeOutside(s, r.store, mobile.value)
    ensures Inv(s) ==> Inv(r.store)
  {
    if !Present(mobile) || !Present(code) then
      VerifyStep(MissingArguments, s)
    else
      var m := mobile.value;
      if m !in s then
        VerifyStep(NoPendingOtp, s)
      else
        var e := s[m];
        if now > e.expiresAt then
          VerifyStep(Expired, s - {m})
        else if e.attempts >= MaxVerifyAttempts then
          VerifyStep(AttemptsExhausted, s - {m})
        else if e.otp == code.value then
          VerifyStep(Verified(Token(m, now)), s - {m})
        else
          var attempts := e.attempts + 1;
          VerifyStep(InvalidCode(MaxVerifyAttempts - attempts), s[m := e.(attempts := attempts)])
  }

  /** The reply of verifyOtp: success and a token exactly on a verified code. */
  function VerifyReply(o: VerifyOutcome): (r: Reply)
    ensures r.success <==> o.Verified?
    ensures r.token.Some? <==> r.success
    ensures o.Verified? ==> r.token == Some(o.token)
    ensures o.InvalidCode? && o.remaining > 0 ==>
      r.message == "Invalid OTP. " + NatToString(o.remaining) + " attempts remaining."
    ensures o.InvalidCode? && o.remaining == 0 ==> r.message == NoAttemptsLeftMessage
  {
    match o
    case MissingArguments => Reply(false, MissingArgumentsMessage, None)
    case NoPendingOtp => Reply(false, NoPendingOtpMessage, None)
    case Expired => Reply(false, ExpiredMessage, None)
    case AttemptsExhausted => Reply(false, AttemptsExhaustedMessage, None)
    case Verified(token) => Reply(true, VerifiedMessage, Some(token))
    case InvalidCode(remaining) =>
      if remaining > 0 then Reply(false, "Invalid OTP. " + NatToString(remaining) + " attempts remaining.", None)
      else Reply(false, NoAttemptsLeftMessage, None)
  }

}
