# OTP lifecycle manager — a Dafny model

This project models the mobile-number OTP login of the backend auth service
(`backend/services/authService.js`). The service keeps an in-memory map from a
mobile number to its one pending record `{otp, expiresAt, attempts}` and offers
two operations:

- `generateOtp(mobileNumber)` checks that the number is 10 to 15 ASCII digits,
  draws a six-digit code, replaces any record for the number with a fresh one
  (five-minute lifetime, no attempts), hands `Your OTP is: <code>` to the
  WhatsApp notifier and reports success however the notifier fares.
- `verifyOtp(mobileNumber, otp)` checks, in this order: both arguments given, a
  record exists, the record has not expired (`now > expiresAt`), fewer than three
  attempts were spent, the code matches. Expiry, exhausted attempts and a match
  each delete the record; only a match succeeds, with a login token. A wrong code
  counts one more attempt and reports how many are left.

The model is functional. The store is an immutable `map<string, OtpRecord>`, and
each operation is a pure function from the old store to an outcome and a new
store. The clock reading `now` (milliseconds), the `Math.random()` draw (an exact
fraction `num / den` in [0, 1)) and the notifier's outcome (`Delivered`,
`Undelivered`, `Raised`) are parameters. Replies carry the source's exact
message strings.

Modules:

- `Options` (`options.dfy`): the optional-value type used for absent arguments and tokens.
- `Decimal` (`decimal.dfy`): base-10 rendering of a natural number, as
  `Number.prototype.toString()` does. It also has the digit-string reader and the
  round trips between the two.
- `RandomOtp` (`random_otp.dfy`): `generateRandomOtp` and the shape of an issued code.
- `AuthService` (`auth_service.dfy`): the record and store, `generateOtp`,
  `verifyOtp`, their replies and the store invariant.
- `AuthTraces` (`auth_traces.dfy`): runs of many calls, and the per-number limits
  that hold over them.
- `AuthScenarios` (`auth_scenarios.dfy`): the login walk-throughs the service is
  meant to support.

## Two consequences of the code worth noting

- Every code is `floor(100000 + r * 900000)`, so it lies in [100000, 999999]
  and never starts with `0`. `RandomOtp.GeneratedCodesAreOtpCodes` shows that the
  issued codes are exactly the six-digit strings without a leading zero.
- The third wrong guess does not delete the record: it stays with
  `attempts == 3`. The fourth call (even with the right code) fails with
  "Maximum verification attempts reached" and only then deletes it, unless the
  record has expired first. `AuthScenarios.ThreeWrongGuessesExhaustTheCode`
  states this order.

## Model

| member | source | states |
|---|---|---|
| `Decimal.NatToString` | backend/services/authService.js:16 | the decimal rendering of a number has at least one digit, only digits, and a leading `0` exactly when the number is zero |
| `Decimal.ParseNatToString` | backend/services/authService.js:16 | reading back the decimal rendering of any natural gives that natural |
| `Decimal.NatToStringParse` | backend/services/authService.js:16 | rendering the value of a digit string without a leading zero gives the string back |
| `Decimal.NatToStringInjective` | backend/services/authService.js:16 | distinct numbers have distinct renderings |
| `Decimal.NatToStringLength` | backend/services/authService.js:16 | a number in [10^k, 10^(k+1)) renders with exactly k+1 digits |
| `Decimal.ParseBelowPow10` | backend/services/authService.js:16 | a string of k digits reads as less than 10^k |
| `Decimal.ParseLeadingNonzero` | backend/services/authService.js:16 | a digit string starting with a non-zero digit reads as at least 10^(length-1) |
| `RandomOtp.OtpValue` | backend/services/authService.js:16 | floor(100000 + r * 900000) for any r in [0, 1) lies in [100000, 999999] |
| `RandomOtp.EveryValueDrawn` | backend/services/authService.js:16 | every value in [100000, 999999] comes from some draw in [0, 1) |
| `RandomOtp.GenerateRandomOtp` | backend/services/authService.js:15-17 | the generated code is six digits with no leading zero, and it reads back as the drawn value |
| `RandomOtp.GeneratedCodesAreOtpCodes` | backend/services/authService.js:15-17 | a string is a possible generated code if and only if it is six digits with a non-zero first digit |
| `AuthService.GenerateOtp` | backend/services/authService.js:24-56 | it succeeds exactly for a present 10–15-digit number. On failure the store is unchanged and nothing is sent. On success the number's record is exactly a fresh code, `now + 300000`, zero attempts, whatever was there before. Other numbers' records are untouched, the notifier gets `Your OTP is: <code>`, and the invariant is kept |
| `AuthService.GenerateReply` | backend/services/authService.js:25-55 | the reply is a success exactly when a code was issued, never carries a token, and has one message per notifier outcome |
| `AuthService.NotifierIsAdvisory` | backend/services/authService.js:38-55 | the notifier's outcome changes neither the store nor the success flag; for a valid number different outcomes give different messages |
| `AuthService.VerifyOtp` | backend/services/authService.js:64-104 | a missing argument or an unknown number fails with the store unchanged. A wrong guess against a live record always gives `InvalidCode`. Success holds if and only if the record is unexpired, has fewer than 3 attempts and matches; it yields a token bound to the number and time. Expiry wins over the attempt limit, which wins over the match. Every terminal outcome deletes exactly that record. A wrong code only adds one attempt and reports `3 - attempts`. Other numbers are untouched, and the invariant (attempts never above 3) is kept |
| `AuthService.VerifyReply` | backend/services/authService.js:65-103 | success and a token exactly on a verified code. A rejection reads "N attempts remaining." while N > 0, else "No attempts remaining. Request a new OTP." |
| `AuthTraces.RunPreservesInv` | backend/services/authService.js:29-103 | after any sequence of calls, every stored record has a valid number as key, a six-digit code and at most 3 attempts |
| `AuthTraces.StepSpendsBudget` | backend/services/authService.js:80-98 | a call that is not a new request for the number never raises its remaining wrong-guess budget, and a rejected guess lowers it by one |
| `AuthTraces.StepSpendsLogin` | backend/services/authService.js:85-86 | a call that is not a new request for the number never creates its record, and a login consumes it |
| `AuthTraces.RejectionsWithinBudget` | backend/services/authService.js:80-98 | until the next request for a number, its rejected guesses never exceed 3 minus the attempts already spent |
| `AuthTraces.SingleUse` | backend/services/authService.js:85-86 | until the next request for a number, it logs in at most once, and never without a pending record |
| `AuthTraces.IssuedCodeLimits` | backend/services/authService.js:29-103 | a freshly issued code admits at most 3 rejected guesses and at most 1 login, whatever calls follow, until the next request |
| `AuthTraces.NoLoginAfterExpiry` | backend/services/authService.js:75-78 | once every later call comes after the record's expiry, the number cannot log in until it requests a new code |
| `AuthScenarios.WrongCodeIsNeverIssued` | backend/services/authService.js:15-17 | "000000" is never a generated code |
| `AuthScenarios.ThreeWrongGuessesExhaustTheCode` | backend/services/authService.js:80-103 | three wrong guesses are rejected with 2, 1, then 0 attempts left (the last worded "No attempts remaining. Request a new OTP."), and keep the record at 3 attempts. The fourth call fails as exhausted even with the right code and deletes the record, so a fifth finds nothing pending |
| `AuthScenarios.RemainingAttemptsMessages` | backend/services/authService.js:98-101 | the rejections after the first and second wrong guess read "Invalid OTP. 2 attempts remaining." and "Invalid OTP. 1 attempts remaining." |
| `AuthScenarios.WrongGuess` | backend/services/authService.js:95-102 | any wrong guess against a live record only adds one attempt to that record, reports the attempts left and leaves every other number's record as it was |
| `AuthScenarios.CodeIsSingleUse` | backend/services/authService.js:85-94 | the right code logs in once, with a token, and empties the store; the same code again finds nothing pending |
| `AuthScenarios.ExpiryIsStrict` | backend/services/authService.js:75-78 | the code is accepted at exactly `issue + 300000` ms and refused as expired, with the record deleted, one millisecond later |
| `AuthScenarios.RequestResetsAttempts` | backend/services/authService.js:29-32 | a new request after two wrong guesses replaces the record with a fresh code, a fresh expiry and zero attempts |
| `AuthScenarios.MalformedNumberIsRefused` | backend/services/authService.js:25-27 | a request for "invalid-phone" is refused with the validation message and creates no record |

## Left out

- The notifier (`backend/services/notificationService.js`): its simulated WhatsApp send, delay and message id are not modelled. Its result is the `Delivery` parameter of `GenerateOtp`: `success` truthy, falsy, or an exception.
- The token string `dummy-jwt-token-for-<number>-<Date.now()>`: it is modelled as the value `Token(number, now)`, not as text.
- The two `Date.now()` reads in `verifyOtp` (expiry check and token) are one `now` parameter. The read in `generateOtp` is the `now` of that call.
- Floating point: `Math.random() * 900000` is computed exactly on the fraction `num / den`. IEEE rounding is not modelled.
- Non-string arguments: JavaScript's truthiness test, the regex's string coercion and `===` on numbers or other values are not modelled. Both arguments are optional strings, and "absent" means missing or empty.
- Console logging and `toLocaleTimeString`: output only, with no effect on the store or the reply.
- Concurrency: `generateOtp` writes the store before awaiting the notifier, so other calls could interleave there. Each operation is modelled as one atomic transition.
- The HTTP routes, server, frontend screens, the Vyapar/inventory/billing connectors, the demand data and the forecasting placeholders are not part of this model. They are routing glue or fixed mock data.
