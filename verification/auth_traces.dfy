/**
 Runs of the OTP service: a sequence of requests and verification attempts applied one
 after another to the store. Over such runs the per-number limits hold: the store
 invariant is kept, a code issued once yields at most one login and at most three
 rejected guesses, and an expired code never logs anyone in.
 */
module AuthTraces {
  import opened Options
  import opened RandomOtp
  import opened AuthService

  /** One call into the service, with the clock reading (and for a request the draw and notifier outcome) it sees. */
  datatype Event =
    | Request(mobile: Option<string>, draw: Draw, delivery: Delivery, now: int)
    | Attempt(mobile: Option<string>, code: Option<string>, now: int)

  predicate ValidEvent(e: Event) {
    e.Request? ==> e.draw.Valid()
  }

  predicate ValidEvents(evs: seq<Event>) {
    forall i :: 0 <= i < |evs| ==> ValidEvent(evs[i])
  }

  function Step(s: Store, e: Event): Store
    requires ValidEvent(e)
  {
    match e
    case Request(mobile, draw, delivery, now) => GenerateOtp(s, mobile, draw, now, delivery).store
    case Attempt(mobile, code, now) => VerifyOtp(s, mobile, code, now).store
  }

  function Run(s: Store, evs: seq<Event>): Store
    requires ValidEvents(evs)
    decreases |evs|
  {
    if evs == [] then s else Run(Step(s, evs[0]), evs[1..])
  }

  /** No event of the run asks for a new code for `m`. */
  predicate NoRequestFor(evs: seq<Event>, m: string) {
    forall i :: 0 <= i < |evs| ==> !(evs[i].Request? && evs[i].mobile == Some(m))
  }

  /** Event `e`, applied to `s`, compared a wrong guess against the code of `m`. */
  predicate RejectsGuess(s: Store, e: Event, m: string)
    requires ValidEvent(e)
  {
    e.Attempt? && e.mobile == Some(m) && VerifyOtp(s, e.mobile, e.code, e.now).outcome.InvalidCode?
  }

  /** Event `e`, applied to `s`, logged `m` in. */
  predicate LogsIn(s: Store, e: Event, m: string)
    requires ValidEvent(e)
  {
    e.Attempt? && e.mobile == Some(m) && VerifyOtp(s, e.mobile, e.code, e.now).outcome.Verified?
  }

  function Rejections(s: Store, evs: seq<Event>, m: string): nat
    requires ValidEvents(evs)
    decreases |evs|
  {
    if evs == [] then 0
    else (if RejectsGuess(s, evs[0], m) then 1 else 0) + Rejections(Step(s, evs[0]), evs[1..], m)
  }

  function Logins(s: Store, evs: seq<Event>, m: string): nat
    requires ValidEvents(evs)
    decreases |evs|
  {
    if evs == [] then 0
    else (if LogsIn(s, evs[0], m) then 1 else 0) + Logins(Step(s, evs[0]), evs[1..], m)
  }

  /** Wrong guesses the pending record of `m` still tolerates. */
  function GuessBudget(s: Store, m: string): nat {
    if m in s && s[m].attempts < MaxVerifyAttempts then MaxVerifyAttempts - s[m].attempts else 0
  }

  function Pending(s: Store, m: string): nat {
    if m in s then 1 else 0
  }

  /** The store invariant holds after any run that starts from a store where it holds (the empty store, say). */
  lemma {:induction false} RunPreservesInv(s: Store, evs: seq<Event>)
    requires Inv(s) && ValidEvents(evs)
    ensures Inv(Run(s, evs))
    decreases |evs|
  {
    if evs != [] {
      RunPreservesInv(Step(s, evs[0]), evs[1..]);
    }
  }

  /** A step that is not a request for `m` leaves the record of `m` alone, except through a verification of `m`. */
  lemma StepFrame(s: Store, e: Event, m: string)
    requires ValidEvent(e) && e.mobile != Some(m)
    ensures (m in Step(s, e) <==> m in s) && (m in s ==> Step(s, e)[m] == s[m])
  {
  }

  /** Each step that is not a request for `m` spends a wrong guess of `m`'s budget, or none. */
  lemma StepSpendsBudget(s: Store, e: Event, m: string)
    requires ValidEvent(e) && !(e.Request? && e.mobile == Some(m))
    ensures GuessBudget(Step(s, e), m) + (if RejectsGuess(s, e, m) then 1 else 0) <= GuessBudget(s, m)
  {
    if e.mobile != Some(m) {
      StepFrame(s, e, m);
    }
  }

  /** Each step that is not a request for `m` either keeps `m`'s pending record or consumes it, at most once logging in. */
  lemma StepSpendsLogin(s: Store, e: Event, m: string)
    requires ValidEvent(e) && !(e.Request? && e.mobile == Some(m))
    ensures Pending(Step(s, e), m) + (if LogsIn(s, e, m) then 1 else 0) <= Pending(s, m)
  {
    if e.mobile != Some(m) {
      StepFrame(s, e, m);
    }
  }

  /** Until a new code is requested for `m`, the wrong guesses rejected for `m` stay within its remaining budget. */
  lemma {:induction false} RejectionsWithinBudget(s: Store, evs: seq<Event>, m: string)
    requires ValidEvents(evs) && NoRequestFor(evs, m)
    ensures Rejections(s, evs, m) <= GuessBudget(s, m)
    decreases |evs|
  {
    if evs != [] {
      StepSpendsBudget(s, evs[0], m);
      assert NoRequestFor(evs[1..], m) by {
        forall i | 0 <= i < |evs[1..]| ensures !(evs[1..][i].Request? && evs[1..][i].mobile == Some(m)) {
          assert evs[1..][i] == evs[i + 1];
        }
      }
      RejectionsWithinBudget(Step(s, evs[0]), evs[1..], m);
    }
  }

  /** Until a new code is requested for `m`, `m` logs in at most once, and not at all without a pending record. */
  lemma {:induction false} SingleUse(s: Store, evs: seq<Event>, m: string)
    requires ValidEvents(evs) && NoRequestFor(evs, m)
    ensures Logins(s, evs, m) <= Pending(s, m)
    decreases |evs|
  {
    if evs != [] {
      StepSpendsLogin(s, evs[0], m);
      assert NoRequestFor(evs[1..], m) by {
        forall i | 0 <= i < |evs[1..]| ensures !(evs[1..][i].Request? && evs[1..][i].mobile == Some(m)) {
          assert evs[1..][i] == evs[i + 1];
        }
      }
      SingleUse(Step(s, evs[0]), evs[1..], m);
    }
  }

  /** A freshly issued code tolerates three wrong guesses and one login, whatever else happens, until the next request. */
  lemma IssuedCodeLimits(s: Store, m: string, draw: Draw, now: int, delivery: Delivery, evs: seq<Event>)
    requires ValidMobile(m) && draw.Valid() && ValidEvents(evs) && NoRequestFor(evs, m)
    ensures Rejections(GenerateOtp(s, Some(m), draw, now, delivery).store, evs, m) <= MaxVerifyAttempts
    ensures Logins(GenerateOtp(s, Some(m), draw, now, delivery).store, evs, m) <= 1
  {
    var s1 := GenerateOtp(s, Some(m), draw, now, delivery).store;
    RejectionsWithinBudget(s1, evs, m);
    SingleUse(s1, evs, m);
  }

  /** Once every call comes after the expiry of `m`'s code, `m` cannot log in until it requests a new one. */
  lemma {:induction false} NoLoginAfterExpiry(s: Store, evs: seq<Event>, m: string)
    requires ValidEvents(evs) && NoRequestFor(evs, m)
    requires m in s ==> forall i :: 0 <= i < |evs| ==> evs[i].now > s[m].expiresAt
    ensures Logins(s, evs, m) == 0
    decreases |evs|
  {
    if evs != [] {
      var e := evs[0];
      var s1 := Step(s, e);
      if e.mobile != Some(m) {
        StepFrame(s, e, m);
      }
      assert !LogsIn(s, e, m);
      assert NoRequestFor(evs[1..], m) by {
        forall i | 0 <= i < |evs[1..]| ensures !(evs[1..][i].Request? && evs[1..][i].mobile == Some(m)) {
          assert evs[1..][i] == evs[i + 1];
        }
      }
      if m in s1 {
        assert m in s && s1[m].expiresAt == s[m].expiresAt;
        forall i | 0 <= i < |evs[1..]| ensures evs[1..][i].now > s1[m].expiresAt {
          assert evs[1..][i] == evs[i + 1];
        }
      }
      NoLoginAfterExpiry(s1, evs[1..], m);
    }
  }

}
