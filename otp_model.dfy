/** The OTP record: its fields, their defaults, the two queries and the two
    in-place updates of the document methods. */
module OtpModel {
  import opened Js

  /** The `type` enum. */
  datatype OtpType = Email | Phone

  /** The `purpose` enum. */
  datatype Purpose = Registration | Login | PasswordReset

  function TypeName(t: OtpType): string
  {
    match t
    case Email => "email"
    case Phone => "phone"
  }

  function PurposeName(p: Purpose): string
  {
    match p
    case Registration => "registration"
    case Login => "login"
    case PasswordReset => "password_reset"
  }

  /** The enum check applied when a record is saved. */
  function ParsePurpose(s: string): (r: Option<Purpose>)
    ensures r.Some? ==> PurposeName(r.value) == s
    ensures r.None? ==> s !in {"registration", "login", "password_reset"}
  {
    if s == "registration" then Some(Registration)
    else if s == "login" then Some(Login)
    else if s == "password_reset" then Some(PasswordReset)
    else None
  }

  /** Every purpose name passes the enum check, and names identify purposes. */
  lemma PurposeNameRoundTrip(p: Purpose)
    ensures ParsePurpose(PurposeName(p)) == Some(p)
  {
    assert |"registration"| == 12 && |"login"| == 5 && |"password_reset"| == 14;
  }

  const DefaultPurpose: Purpose := Registration
  const DefaultMaxAttempts: int := 3

  /** The stored fields of a record, as a value. */
  datatype OtpState = OtpState(identifier: string, otp: string, kind: OtpType, purpose: Purpose,
                               isVerified: bool, attempts: int, maxAttempts: int,
                               expiresAt: int, createdAt: int)

  /** One stored OTP document. Only `isVerified` and `attempts` ever change. */
  class Otp {
    const identifier: string
    const otp: string
    const kind: OtpType
    const purpose: Purpose
    const maxAttempts: int
    /** Expiry instant and creation instant, in milliseconds. */
    const expiresAt: int
    const createdAt: int
    var isVerified: bool
    var attempts: int

    /** `new OTP({...})` followed by `save()` at instant `now`; an omitted
        purpose takes the schema default. */
    constructor(identifier: string, otp: string, kind: OtpType, purpose: Option<Purpose>,
                expiresAt: int, now: int)
      ensures State() == OtpState(identifier, otp, kind,
                                  if purpose.Some? then purpose.value else DefaultPurpose,
                                  false, 0, DefaultMaxAttempts, expiresAt, now)
    {
      this.identifier := identifier;
      this.otp := otp;
      this.kind := kind;
      this.purpose := if purpose.Some? then purpose.value else DefaultPurpose;
      this.maxAttempts := DefaultMaxAttempts;
      this.expiresAt := expiresAt;
      this.createdAt := now;
      this.isVerified := false;
      this.attempts := 0;
    }

    /** A document hydrated from a stored record, as `findOne` returns it. */
    constructor Load(s: OtpState)
      ensures State() == s
    {
      identifier, otp, kind, purpose := s.identifier, s.otp, s.kind, s.purpose;
      maxAttempts, expiresAt, createdAt := s.maxAttempts, s.expiresAt, s.createdAt;
      isVerified, attempts := s.isVerified, s.attempts;
    }

    /** The stored form of the document. */
    function State(): OtpState
      reads this
    {
      OtpState(identifier, otp, kind, purpose, isVerified, attempts, maxAttempts, expiresAt, createdAt)
    }

    /** `isExpired`: strictly after the expiry instant. */
    predicate IsExpired(now: int)
    {
      now > expiresAt
    }

    /** `isMaxAttemptsExceeded` */
    predicate IsMaxAttemptsExceeded()
      reads this
    {
      attempts >= maxAttempts
    }

    /** `incrementAttempts`; the caller's `save` writes `State()` back. */
    method IncrementAttempts()
      modifies this
      ensures State() == old(State()).(attempts := old(attempts) + 1)
    {
      attempts := attempts + 1;
    }

    /** `markAsVerified`; the caller's `save` writes `State()` back. */
    method MarkAsVerified()
      modifies this
      ensures State() == old(State()).(isVerified := true)
    {
      isVerified := true;
    }
  }

  /** `isExpired` on a stored value. */
  predicate Expired(r: OtpState, now: int)
  {
    now > r.expiresAt
  }

  /** `isMaxAttemptsExceeded` on a stored value. */
  predicate Exhausted(r: OtpState)
  {
    r.attempts >= r.maxAttempts
  }

  /** A code is still usable at the very instant it expires, and not one
      millisecond later. */
  lemma ExpiryIsStrict(r: OtpState)
    ensures !Expired(r, r.expiresAt) && Expired(r, r.expiresAt + 1)
  {
  }

  /** A fresh record is not exhausted, and with the defaults it is exhausted
      exactly from the third attempt on. */
  lemma FreshRecordHasThreeAttempts(r: OtpState, k: int)
    requires r.maxAttempts == DefaultMaxAttempts && r.attempts == k
    ensures Exhausted(r) <==> k >= 3
  {
  }
}
