/** The OTP service: identifier classification, code generation, and the
    create, verify, resend and status operations on the store of OTP records.

    The store is a sequence of record objects. Each operation is specified by a
    function on the sequence of stored values (`View`), and the lifecycle
    properties are proved about those functions. */
module OtpService {
  import opened Js
  import opened EmailPattern
  import opened OtpModel

  /** `otpExpiryMinutes`, in milliseconds. */
  const OtpLifetime: int := 10 * 60 * 1000

  const InvalidIdentifierMessage := "Invalid identifier format. Please provide a valid email or phone number."
  const EmailDeliveryFailedMessage := "Failed to send email OTP. Please try again."
  const NoOtpMessage := "No OTP found for this identifier. Please request a new OTP."
  const ExpiredMessage := "OTP has expired. Please request a new OTP."
  const ExhaustedMessage := "Maximum verification attempts exceeded. Please request a new OTP."
  const WrongCodeMessage := "Invalid OTP. Please try again."
  const VerifiedMessage := "OTP verified successfully"

  /** The validation error raised when a record with a purpose outside the
      enum is saved. */
  function PurposeValidationMessage(purpose: string): string
  {
    "OTP validation failed: purpose: `" + purpose + "` is not a valid enum value for path `purpose`."
  }

  // ----- identifier classification -----

  /** `isValidEmail` */
  predicate IsValidEmail(s: string)
  {
    MatchesEmailRegex(s)
  }

  /** `[\d\s\-\(\)]` */
  predicate IsPhoneChar(c: char)
  {
    IsDigit(c) || IsSpace(c) || c == '-' || c == '(' || c == ')'
  }

  /** `[\d\s\-\(\)]{10,}` as a whole string. */
  predicate PhoneRun(s: string)
  {
    |s| >= 10 && forall k | 0 <= k < |s| :: IsPhoneChar(s[k])
  }

  /** `isValidPhone`: `^\+?[\d\s\-\(\)]{10,}$`. */
  function IsValidPhone(s: string): (r: bool)
    ensures r <==> exists k | 0 <= k <= 1 && k <= |s| :: (k == 1 ==> s[0] == '+') && PhoneRun(s[k..])
  {
    assert s[0..] == s;
    if s != [] && s[0] == '+' then
      assert !PhoneRun(s) by { assert !IsPhoneChar(s[0]); }
      PhoneRun(s[1..])
    else PhoneRun(s)
  }

  /** A phone number never contains '@', so no string is both. */
  lemma EmailAndPhoneDisjoint(s: string)
    ensures !(IsValidEmail(s) && IsValidPhone(s))
  {
    if IsValidEmail(s) {
      var i, j :| 0 <= i < j < |s| && SplitMatches(s, i, j);
      if s[0] == '+' {
        assert s[1..][i - 1] == '@' && !IsPhoneChar(s[1..][i - 1]);
      } else {
        assert !IsPhoneChar(s[i]);
      }
    }
  }

  /** `getIdentifierType`: email first, then phone, else an error. */
  function GetIdentifierType(identifier: string): (r: Result<OtpType>)
    ensures r == Ok(Email) <==> IsValidEmail(identifier)
    ensures r == Ok(Phone) <==> IsValidPhone(identifier)
    ensures r.Err? <==> !IsValidEmail(identifier) && !IsValidPhone(identifier)
    ensures r.Err? ==> r.message == InvalidIdentifierMessage
  {
    EmailAndPhoneDisjoint(identifier);
    if IsValidEmail(identifier) then Ok(Email)
    else if IsValidPhone(identifier) then Ok(Phone)
    else Err(InvalidIdentifierMessage)
  }

  // ----- code generation -----

  /** The decimal string of a value of `crypto.randomInt(100000, 999999)`. */
  predicate IsGeneratedCode(code: string)
  {
    exists n | 100000 <= n < 999999 :: code == NatToString(n)
  }

  /** Every value in the range renders as six decimal digits. */
  lemma GeneratedCodeHasSixDigits(code: string)
    requires IsGeneratedCode(code)
    ensures |code| == 6 && AllDigits(code) && code[0] != '0'
  {
    var n :| 100000 <= n < 999999 && code == NatToString(n);
    assert Pow10(5) == 100000 && Pow10(6) == 1000000;
    NatToStringLength(n, 6);
  }

  /** `generateOTP`; the random draw is a nondeterministic choice in the
      half-open range. */
  method GenerateOTP() returns (code: string)
    ensures IsGeneratedCode(code)
    ensures |code| == 6 && AllDigits(code)
  {
    var n :| 100000 <= n < 999999;
    code := NatToString(n);
    GeneratedCodeHasSixDigits(code);
  }

  // ----- the store, as values -----

  /** The record belongs to the (identifier, purpose) pair of a query. */
  predicate ForPair(r: OtpState, identifier: string, purpose: string)
  {
    r.identifier == identifier && PurposeName(r.purpose) == purpose
  }

  /** The filter `{ identifier, purpose, isVerified: false }`. */
  predicate PendingFor(r: OtpState, identifier: string, purpose: string)
  {
    ForPair(r, identifier, purpose) && !r.isVerified
  }

  /** No (identifier, purpose) pair has two unverified records. */
  predicate UniquePending(v: seq<OtpState>)
  {
    forall i, j | 0 <= i < |v| && 0 <= j < |v| ::
      (!v[i].isVerified && !v[j].isVerified && v[i].identifier == v[j].identifier
       && v[i].purpose == v[j].purpose) ==> i == j
  }

  /** `deleteMany({ identifier, isVerified: false, purpose })` */
  function DeletePending(v: seq<OtpState>, identifier: string, purpose: string): (w: seq<OtpState>)
    ensures |w| <= |v|
    ensures forall r :: r in w <==> r in v && !PendingFor(r, identifier, purpose)
  {
    if v == [] then []
    else (if PendingFor(v[0], identifier, purpose) then [] else [v[0]])
         + DeletePending(v[1..], identifier, purpose)
  }

  /** Deleting twice deletes nothing more. */
  lemma {:induction false} DeletePendingIdempotent(v: seq<OtpState>, identifier: string, purpose: string)
    ensures DeletePending(DeletePending(v, identifier, purpose), identifier, purpose)
            == DeletePending(v, identifier, purpose)
  {
    if v != [] {
      DeletePendingIdempotent(v[1..], identifier, purpose);
      var rest := DeletePending(v[1..], identifier, purpose);
      if !PendingFor(v[0], identifier, purpose) {
        var u := [v[0]] + rest;
        assert u[0] == v[0] && u[1..] == rest;
      } else {
        assert [] + rest == rest;
      }
    }
  }

  /** `UniquePending` survives putting a record in front of the sequence when no
      record of it pairs with it. */
  lemma UniquePendingCons(x: OtpState, w: seq<OtpState>)
    requires UniquePending(w)
    requires !x.isVerified ==> forall r | r in w :: !PendingFor(r, x.identifier, PurposeName(x.purpose))
    ensures UniquePending([x] + w)
  {
    var u := [x] + w;
    if !x.isVerified {
      forall k | 0 <= k < |w| ensures !PendingFor(w[k], x.identifier, PurposeName(x.purpose)) {
        assert w[k] in w;
      }
    }
    forall i, j | 0 <= i < |u| && 0 <= j < |u| && !u[i].isVerified && !u[j].isVerified
        && u[i].identifier == u[j].identifier && u[i].purpose == u[j].purpose
      ensures i == j
    {
      if i > 0 {
        assert u[i] == w[i - 1];
      }
      if j > 0 {
        assert u[j] == w[j - 1];
      }
    }
  }

  /** Deleting records keeps the pending records unique. */
  lemma {:induction false} DeletePendingKeepsUnique(v: seq<OtpState>, identifier: string, purpose: string)
    requires UniquePending(v)
    ensures UniquePending(DeletePending(v, identifier, purpose))
  {
    if v != [] {
      var tail := v[1..];
      assert UniquePending(tail) by {
        forall i, j | 0 <= i < |tail| && 0 <= j < |tail| && !tail[i].isVerified && !tail[j].isVerified
            && tail[i].identifier == tail[j].identifier && tail[i].purpose == tail[j].purpose
          ensures i == j
        {
          assert tail[i] == v[i + 1] && tail[j] == v[j + 1];
        }
      }
      DeletePendingKeepsUnique(tail, identifier, purpose);
      var rest := DeletePending(tail, identifier, purpose);
      if !PendingFor(v[0], identifier, purpose) {
        var x := v[0];
        forall r | r in rest && !x.isVerified
          ensures !PendingFor(r, x.identifier, PurposeName(x.purpose))
        {
          var k :| 0 <= k < |tail| && tail[k] == r;
          assert v[k + 1] == r;
        }
        UniquePendingCons(x, rest);
      }
    }
  }

  /** Index of the first unverified record of the pair, or -1 (`findOne`). */
  function FindPending(v: seq<OtpState>, identifier: string, purpose: string): (k: int)
    ensures -1 <= k < |v|
    ensures k >= 0 ==> PendingFor(v[k], identifier, purpose)
    ensures forall i | 0 <= i < |v| && (k == -1 || i < k) :: !PendingFor(v[i], identifier, purpose)
  {
    if v == [] then -1
    else if PendingFor(v[0], identifier, purpose) then 0
    else var k := FindPending(v[1..], identifier, purpose); if k == -1 then -1 else k + 1
  }

  /** With unique pending records, `findOne` has only one record to choose. */
  lemma PendingIsFound(v: seq<OtpState>, identifier: string, purpose: string, i: int)
    requires UniquePending(v) && 0 <= i < |v| && PendingFor(v[i], identifier, purpose)
    ensures FindPending(v, identifier, purpose) == i
  {
    var k := FindPending(v, identifier, purpose);
    assert k >= 0;
    assert PendingFor(v[k], identifier, purpose);
  }

  datatype Sent = Sent(message: string, identifier: string, kind: OtpType, purpose: Purpose, expiresAt: int)

  datatype VerifyOk = VerifyOk(message: string, identifier: string, purpose: string)

  /** The answer of `getOTPStatus`. */
  const NoStatusMessage := "No OTP found"

  datatype OtpStatus =
    | NoOtp(message: string)
    | Found(isVerified: bool, isExpired: bool, attempts: int, maxAttempts: int, expiresAt: int, createdAt: int)

  function StatusOf(r: OtpState, now: int): OtpStatus
  {
    Found(r.isVerified, Expired(r, now), r.attempts, r.maxAttempts, r.expiresAt, r.createdAt)
  }

  /** The record `createAndSendOTP` saves. */
  function NewRecord(identifier: string, code: string, kind: OtpType, purpose: Purpose, now: int): OtpState
  {
    OtpState(identifier, code, kind, purpose, false, 0, DefaultMaxAttempts, now + OtpLifetime, now)
  }

  function SentMessage(kind: OtpType): string
  {
    if kind == Email then "OTP sent successfully to email" else "OTP sent successfully to phone"
  }

  /** `createAndSendOTP`: the answer and the new store, for the drawn `code`.
      A phone "delivery" is a mock that always succeeds; an e-mail delivery
      succeeds exactly when `emailDelivered`. */
  function CreateSpec(v: seq<OtpState>, identifier: string, purpose: string, code: string,
                      now: int, emailDelivered: bool): (Result<Sent>, seq<OtpState>)
  {
    match GetIdentifierType(identifier)
    case Err(m) => (Err(m), v)
    case Ok(kind) =>
      var w := DeletePending(v, identifier, purpose);
      match ParsePurpose(purpose)
      case None => (Err(PurposeValidationMessage(purpose)), w)
      case Some(p) =>
        var w2 := w + [NewRecord(identifier, code, kind, p, now)];
        if kind == Email && !emailDelivered then (Err(EmailDeliveryFailedMessage), w2)
        else (Ok(Sent(SentMessage(kind), identifier, kind, p, now + OtpLifetime)), w2)
  }

  /** `verifyOTP`: the answer and the new store, for the unverified record of
      the pair (unique in a valid store). */
  function VerifySpec(v: seq<OtpState>, identifier: string, code: string, purpose: string, now: int)
    : (Result<VerifyOk>, seq<OtpState>)
  {
    var k := FindPending(v, identifier, purpose);
    if k < 0 then (Err(NoOtpMessage), v)
    else if Expired(v[k], now) then (Err(ExpiredMessage), v)
    else if Exhausted(v[k]) then (Err(ExhaustedMessage), v)
    else
      var bumped := v[k].(attempts := v[k].attempts + 1);
      if bumped.otp != code then (Err(WrongCodeMessage), v[k := bumped])
      else (Ok(VerifyOk(VerifiedMessage, identifier, purpose)), v[k := bumped.(isVerified := true)])
  }

  /** `resendOTP`: the unverified records of the pair are deleted first, even
      when the identifier is then refused. */
  function ResendSpec(v: seq<OtpState>, identifier: string, purpose: string, code: string,
                      now: int, emailDelivered: bool): (Result<Sent>, seq<OtpState>)
  {
    CreateSpec(DeletePending(v, identifier, purpose), identifier, purpose, code, now, emailDelivered)
  }

  // ----- lifecycle properties -----

  /** After a create that gets as far as saving, the pair has exactly one
      unverified record, the new one, holding the drawn code and expiring ten
      minutes from now; every other record of the store is kept. */
  lemma CreateLeavesOnePending(v: seq<OtpState>, identifier: string, purpose: string, code: string,
                               now: int, emailDelivered: bool)
    requires GetIdentifierType(identifier).Ok? && ParsePurpose(purpose).Some?
    ensures var w := CreateSpec(v, identifier, purpose, code, now, emailDelivered).1;
      |w| >= 1 && w[|w| - 1] == NewRecord(identifier, code, GetIdentifierType(identifier).value,
                                          ParsePurpose(purpose).value, now)
      && w[|w| - 1].expiresAt == now + 10 * 60 * 1000
      && (forall i | 0 <= i < |w| - 1 :: !PendingFor(w[i], identifier, purpose))
      && (forall r | r in v && !PendingFor(r, identifier, purpose) :: r in w)
  {
    var w := CreateSpec(v, identifier, purpose, code, now, emailDelivered).1;
    var d := DeletePending(v, identifier, purpose);
    assert w == d + [w[|w| - 1]];
    forall i | 0 <= i < |w| - 1 ensures !PendingFor(w[i], identifier, purpose) {
      assert w[i] == d[i] && d[i] in d;
    }
  }

  /** The record is saved before delivery, so a failed e-mail delivery leaves
      the same store as a successful one. */
  lemma SavedBeforeDelivery(v: seq<OtpState>, identifier: string, purpose: string, code: string, now: int)
    requires GetIdentifierType(identifier).Ok? && ParsePurpose(purpose).Some?
    ensures CreateSpec(v, identifier, purpose, code, now, false).1 == CreateSpec(v, identifier, purpose, code, now, true).1
    ensures GetIdentifierType(identifier) == Ok(Email) ==>
      CreateSpec(v, identifier, purpose, code, now, false).0 == Err(EmailDeliveryFailedMessage)
  {
  }

  /** A refused identifier changes nothing; a refused purpose leaves the
      store as it was, since no stored record has such a purpose. */
  lemma CreateRefusals(v: seq<OtpState>, identifier: string, purpose: string, code: string,
                       now: int, emailDelivered: bool)
    ensures GetIdentifierType(identifier).Err? ==>
      CreateSpec(v, identifier, purpose, code, now, emailDelivered) == (Err(InvalidIdentifierMessage), v)
    ensures GetIdentifierType(identifier).Ok? && ParsePurpose(purpose).None? ==>
      CreateSpec(v, identifier, purpose, code, now, emailDelivered) == (Err(PurposeValidationMessage(purpose)), v)
  {
    if GetIdentifierType(identifier).Ok? && ParsePurpose(purpose).None? {
      NoRecordHasUnknownPurpose(v, identifier, purpose);
    }
  }

  lemma {:induction false} NoRecordHasUnknownPurpose(v: seq<OtpState>, identifier: string, purpose: string)
    requires ParsePurpose(purpose).None?
    ensures DeletePending(v, identifier, purpose) == v
  {
    if v != [] {
      PurposeNameRoundTrip(v[0].purpose);
      NoRecordHasUnknownPurpose(v[1..], identifier, purpose);
      assert v == [v[0]] + v[1..];
    }
  }

  /** Creating keeps the store free of duplicate unverified records. */
  lemma CreateKeepsUnique(v: seq<OtpState>, identifier: string, purpose: string, code: string,
                          now: int, emailDelivered: bool)
    requires UniquePending(v)
    ensures UniquePending(CreateSpec(v, identifier, purpose, code, now, emailDelivered).1)
  {
    DeletePendingKeepsUnique(v, identifier, purpose);
    if GetIdentifierType(identifier).Ok? && ParsePurpose(purpose).Some? {
      var d := DeletePending(v, identifier, purpose);
      var w := CreateSpec(v, identifier, purpose, code, now, emailDelivered).1;
      var x := w[|w| - 1];
      PurposeNameRoundTrip(x.purpose);
      assert w == d + [x];
      forall k | 0 <= k < |d| ensures !PendingFor(d[k], identifier, purpose) {
        assert d[k] in d;
      }
      forall i, j | 0 <= i < |w| && 0 <= j < |w| && !w[i].isVerified && !w[j].isVerified
          && w[i].identifier == w[j].identifier && w[i].purpose == w[j].purpose
        ensures i == j
      {
        if i < |d| {
          assert w[i] == d[i];
        }
        if j < |d| {
          assert w[j] == d[j];
        }
      }
    }
  }

  /** The early refusals of `verifyOTP`, in their order, leave the store as it
      was: no unverified record, an expired one, an exhausted one. */
  lemma VerifyRefusalsChangeNothing(v: seq<OtpState>, identifier: string, code: string, purpose: string, now: int)
    ensures var (res, w) := VerifySpec(v, identifier, code, purpose, now);
      var k := FindPending(v, identifier, purpose);
      (k < 0 ==> res == Err(NoOtpMessage) && w == v)
      && (k >= 0 && Expired(v[k], now) ==> res == Err(ExpiredMessage) && w == v)
      && (k >= 0 && !Expired(v[k], now) && Exhausted(v[k]) ==> res == Err(ExhaustedMessage) && w == v)
  {
  }

  /** Past the three checks every call consumes one attempt, whatever the
      code; the record is verified exactly when the code matches, and nothing
      else in the store changes. */
  lemma VerifyConsumesAttempt(v: seq<OtpState>, identifier: string, code: string, purpose: string, now: int)
    requires var k := FindPending(v, identifier, purpose); k >= 0 && !Expired(v[k], now) && !Exhausted(v[k])
    ensures var (res, w) := VerifySpec(v, identifier, code, purpose, now);
      var k := FindPending(v, identifier, purpose);
      |w| == |v| && w[k].attempts == v[k].attempts + 1
      && (res.Ok? <==> v[k].otp == code) && w[k].isVerified == res.Ok?
      && w[k] == v[k].(attempts := v[k].attempts + 1, isVerified := res.Ok?)
      && (res.Err? ==> res.message == WrongCodeMessage)
      && forall i | 0 <= i < |v| && i != k :: w[i] == v[i]
  {
  }

  /** What `verifyOTP` does once the record has passed the three checks. */
  lemma VerifySpecPastChecks(v: seq<OtpState>, identifier: string, code: string, purpose: string, now: int, k: int)
    requires FindPending(v, identifier, purpose) == k && k >= 0 && !Expired(v[k], now) && !Exhausted(v[k])
    ensures var bumped := v[k].(attempts := v[k].attempts + 1);
      VerifySpec(v, identifier, code, purpose, now)
      == if bumped.otp != code then (Err(WrongCodeMessage), v[k := bumped])
         else (Ok(VerifyOk(VerifiedMessage, identifier, purpose)), v[k := bumped.(isVerified := true)])
  {
  }

  /** Verifying keeps the store free of duplicate unverified records. */
  lemma VerifyKeepsUnique(v: seq<OtpState>, identifier: string, code: string, purpose: string, now: int)
    requires UniquePending(v)
    ensures UniquePending(VerifySpec(v, identifier, code, purpose, now).1)
  {
    var w := VerifySpec(v, identifier, code, purpose, now).1;
    var k := FindPending(v, identifier, purpose);
    forall i, j | 0 <= i < |w| && 0 <= j < |w| && !w[i].isVerified && !w[j].isVerified
        && w[i].identifier == w[j].identifier && w[i].purpose == w[j].purpose
      ensures i == j
    {
      assert !v[i].isVerified && !v[j].isVerified;
    }
  }

  /** After a successful verification the pair has no unverified record left,
      so the next verification of the pair answers 'No OTP found'. */
  lemma SecondVerifyFindsNothing(v: seq<OtpState>, identifier: string, code: string, code2: string,
                                 purpose: string, now: int, later: int)
    requires UniquePending(v)
    requires VerifySpec(v, identifier, code, purpose, now).0.Ok?
    ensures var w := VerifySpec(v, identifier, code, purpose, now).1;
      VerifySpec(w, identifier, code2, purpose, later) == (Err(NoOtpMessage), w)
  {
    var w := VerifySpec(v, identifier, code, purpose, now).1;
    var k := FindPending(v, identifier, purpose);
    forall i | 0 <= i < |w| ensures !PendingFor(w[i], identifier, purpose) {
      if i != k {
        assert w[i] == v[i];
      }
    }
  }

  /** `n` verifications of the pair with the same wrong code, at one instant. */
  function WrongTries(v: seq<OtpState>, identifier: string, code: string, purpose: string, now: int, n: nat)
    : seq<OtpState>
  {
    if n == 0 then v else VerifySpec(WrongTries(v, identifier, code, purpose, now, n - 1), identifier, code, purpose, now).1
  }

  /** While the record of the pair is live and `code` is wrong, each try adds
      exactly one attempt and the record stays unverified and in place. */
  lemma {:induction false} WrongTriesCount(v: seq<OtpState>, identifier: string, code: string, purpose: string,
                                           now: int, n: nat)
    requires var k := FindPending(v, identifier, purpose);
      k >= 0 && !Expired(v[k], now) && v[k].otp != code && v[k].attempts + n <= v[k].maxAttempts
    ensures var k := FindPending(v, identifier, purpose);
      var w := WrongTries(v, identifier, code, purpose, now, n);
      FindPending(w, identifier, purpose) == k && |w| == |v|
      && w[k] == v[k].(attempts := v[k].attempts + n)
  {
    if n > 0 {
      WrongTriesCount(v, identifier, code, purpose, now, n - 1);
      var k := FindPending(v, identifier, purpose);
      var p := WrongTries(v, identifier, code, purpose, now, n - 1);
      VerifyConsumesAttempt(p, identifier, code, purpose, now);
      var w := VerifySpec(p, identifier, code, purpose, now).1;
      FirstPendingStays(p, w, identifier, purpose, k);
    }
  }

  /** Changing only the attempts of the first unverified record keeps it first. */
  lemma FirstPendingStays(p: seq<OtpState>, w: seq<OtpState>, identifier: string, purpose: string, k: int)
    requires FindPending(p, identifier, purpose) == k && k >= 0
    requires |w| == |p| && w[k] == p[k].(attempts := w[k].attempts)
    requires forall i | 0 <= i < |p| && i != k :: w[i] == p[i]
    ensures FindPending(w, identifier, purpose) == k
  {
    assert PendingFor(w[k], identifier, purpose);
  }

  /** Once the wrong tries have used up every attempt, the right code is refused. */
  lemma WrongTriesLockOut(v: seq<OtpState>, identifier: string, wrong: string, right: string,
                          purpose: string, now: int)
    requires var k := FindPending(v, identifier, purpose);
      k >= 0 && !Expired(v[k], now) && v[k].otp == right && wrong != right
      && 0 <= v[k].attempts <= v[k].maxAttempts
    ensures var k := FindPending(v, identifier, purpose);
      var w := WrongTries(v, identifier, wrong, purpose, now, v[k].maxAttempts - v[k].attempts);
      VerifySpec(w, identifier, right, purpose, now) == (Err(ExhaustedMessage), w)
  {
    var k := FindPending(v, identifier, purpose);
    var n := v[k].maxAttempts - v[k].attempts;
    WrongTriesCount(v, identifier, wrong, purpose, now, n);
    var w := WrongTries(v, identifier, wrong, purpose, now, n);
    assert FindPending(w, identifier, purpose) == k && !Expired(w[k], now) && Exhausted(w[k]);
    VerifyRefusalsChangeNothing(w, identifier, right, purpose, now);
  }

  /** `resendOTP` behaves as `createAndSendOTP` when the identifier is
      accepted; when it is refused, the unverified records of the pair are
      gone all the same. */
  lemma ResendIsCreate(v: seq<OtpState>, identifier: string, purpose: string, code: string,
                       now: int, emailDelivered: bool)
    ensures GetIdentifierType(identifier).Ok? ==>
      ResendSpec(v, identifier, purpose, code, now, emailDelivered)
      == CreateSpec(v, identifier, purpose, code, now, emailDelivered)
    ensures GetIdentifierType(identifier).Err? ==>
      ResendSpec(v, identifier, purpose, code, now, emailDelivered)
      == (Err(InvalidIdentifierMessage), DeletePending(v, identifier, purpose))
  {
    DeletePendingIdempotent(v, identifier, purpose);
  }

  /** The OTP collection. Each operation loads the matching document,
      applies the document methods to it and saves it back. */
  class OtpStore {
    var records: seq<OtpState>

    ghost predicate Valid()
      reads this
    {
      UniquePending(records)
    }

    constructor()
      ensures Valid() && records == []
    {
      records := [];
    }

    /** `createAndSendOTP(identifier, purpose)` at instant `now`. */
    method CreateAndSendOTP(identifier: string, purpose: string, now: int, emailDelivered: bool)
      returns (res: Result<Sent>)
      requires Valid()
      modifies this
      ensures Valid()
      ensures exists code | IsGeneratedCode(code) ::
        (res, records) == CreateSpec(old(records), identifier, purpose, code, now, emailDelivered)
    {
      ghost var v := records;
      var kind := GetIdentifierType(identifier);
      var code := GenerateOTP();
      CreateKeepsUnique(v, identifier, purpose, code, now, emailDelivered);
      if kind.Err? {
        res := Err(kind.message);
        return;
      }
      var expiresAt := now + OtpLifetime;
      records := DeletePending(records, identifier, purpose);
      var p := ParsePurpose(purpose);
      if p.None? {
        res := Err(PurposeValidationMessage(purpose));
        return;
      }
      var doc := new Otp(identifier, code, kind.value, p, expiresAt, now);
      records := records + [doc.State()];
      if kind.value == Email && !emailDelivered {
        res := Err(EmailDeliveryFailedMessage);
      } else {
        res := Ok(Sent(SentMessage(kind.value), identifier, kind.value, p.value, expiresAt));
      }
    }

    /** `verifyOTP(identifier, otp, purpose)` at instant `now`. */
    method VerifyOTP(identifier: string, code: string, purpose: string, now: int) returns (res: Result<VerifyOk>)
      requires Valid()
      modifies this
      ensures Valid()
      ensures (res, records) == VerifySpec(old(records), identifier, code, purpose, now)
    {
      ghost var v := records;
      VerifyKeepsUnique(v, identifier, code, purpose, now);
      if !exists i | 0 <= i < |records| :: PendingFor(records[i], identifier, purpose) {
        assert FindPending(v, identifier, purpose) == -1;
        return Err(NoOtpMessage);
      }
      var i :| 0 <= i < |records| && PendingFor(records[i], identifier, purpose);
      PendingIsFound(v, identifier, purpose, i);
      var doc := new Otp.Load(records[i]);
      if doc.IsExpired(now) {
        return Err(ExpiredMessage);
      }
      if doc.IsMaxAttemptsExceeded() {
        return Err(ExhaustedMessage);
      }
      VerifySpecPastChecks(v, identifier, code, purpose, now, i);
      doc.IncrementAttempts();
      records := records[i := doc.State()];
      if doc.otp != code {
        return Err(WrongCodeMessage);
      }
      doc.MarkAsVerified();
      records := records[i := doc.State()];
      assert records == v[i := v[i].(attempts := v[i].attempts + 1, isVerified := true)];
      res := Ok(VerifyOk(VerifiedMessage, identifier, purpose));
    }

    /** `resendOTP(identifier, purpose)` at instant `now`. */
    method ResendOTP(identifier: string, purpose: string, now: int, emailDelivered: bool)
      returns (res: Result<Sent>)
      requires Valid()
      modifies this
      ensures Valid()
      ensures exists code | IsGeneratedCode(code) ::
        (res, records) == ResendSpec(old(records), identifier, purpose, code, now, emailDelivered)
    {
      DeletePendingKeepsUnique(records, identifier, purpose);
      records := DeletePending(records, identifier, purpose);
      res := CreateAndSendOTP(identifier, purpose, now, emailDelivered);
    }

    /** `getOTPStatus(identifier, purpose)` at instant `now`: the status of any
        one record of the pair, verified or not. */
    method GetOTPStatus(identifier: string, purpose: string, now: int) returns (status: OtpStatus)
      ensures status.NoOtp? <==> forall i | 0 <= i < |records| :: !ForPair(records[i], identifier, purpose)
      ensures status.NoOtp? ==> status == NoOtp(NoStatusMessage)
      ensures status.Found? ==> exists i | 0 <= i < |records| ::
        ForPair(records[i], identifier, purpose) && status == StatusOf(records[i], now)
    {
      if !exists i | 0 <= i < |records| :: ForPair(records[i], identifier, purpose) {
        return NoOtp(NoStatusMessage);
      }
      var i :| 0 <= i < |records| && ForPair(records[i], identifier, purpose);
      var doc := new Otp.Load(records[i]);
      status := Found(doc.isVerified, doc.IsExpired(now), doc.attempts, doc.maxAttempts,
                      doc.expiresAt, doc.createdAt);
    }
  }
}
