/** The OTP HTTP handlers: request-field checks in front of the service, and
    the mapping of the service's answers and errors to responses. A request
    field is `None` when it is absent from the body or query. */
module OtpController {
  import opened Js
  import opened OtpModel
  import opened OtpService

  const IdentifierRequiredMessage := "Identifier (email or phone) is required"
  const InvalidPurposeMessage := "Invalid purpose. Must be one of: registration, login, password_reset"
  const IdentifierAndOtpRequiredMessage := "Identifier and OTP are required"
  const OtpFormatMessage := "OTP must be a 6-digit number"

  /** What a handler sends: the status code, the `success` flag, the message
      and the `data` object. */
  datatype Payload =
    | NoData
    | SentData(sent: Sent)
    | VerifiedData(verified: VerifyOk)
    | StatusData(status: OtpStatus)

  datatype Reply = Reply(status: int, success: bool, message: string, data: Payload)

  /** The destructuring default `purpose = 'registration'`, which applies only
      to an absent field. */
  function PurposeOrDefault(purpose: Option<string>): (p: string)
    ensures purpose.None? ==> p == PurposeName(DefaultPurpose)
    ensures purpose.Some? ==> p == purpose.value
  {
    if purpose.Some? then purpose.value else "registration"
  }

  function BadRequest(message: string): Reply
  {
    Reply(400, false, message, NoData)
  }

  /** The `catch` branch: every service error becomes a 400 carrying its
      message, or the handler's fallback when the message is empty. */
  function ErrorReply(message: string, fallback: string): (r: Reply)
    ensures r.status == 400 && !r.success
    ensures message != "" ==> r.message == message
    ensures message == "" ==> r.message == fallback
  {
    BadRequest(if message != "" then message else fallback)
  }

  /** `/^\d{6}$/.test(otp)` */
  predicate IsSixDigits(s: string)
  {
    |s| == 6 && AllDigits(s)
  }

  /** The checks of `sendOTP` that answer before the service is called. */
  function SendOtpRejection(identifier: Option<string>, purpose: Option<string>): (r: Option<Reply>)
    ensures Missing(identifier) ==> r == Some(BadRequest(IdentifierRequiredMessage))
    ensures !Missing(identifier) ==>
      (r.None? <==> ParsePurpose(PurposeOrDefault(purpose)).Some?)
    ensures r.Some? ==> r.value.status == 400 && !r.value.success
  {
    if Missing(identifier) then Some(BadRequest(IdentifierRequiredMessage))
    else if PurposeOrDefault(purpose) !in ["registration", "login", "password_reset"] then
      Some(BadRequest(InvalidPurposeMessage))
    else None
  }

  /** The checks of `verifyOTP` that answer before the service is called. */
  function VerifyOtpRejection(identifier: Option<string>, otp: Option<string>): (r: Option<Reply>)
    ensures r.None? <==> !Missing(identifier) && !Missing(otp) && IsSixDigits(otp.value)
    ensures (Missing(identifier) || Missing(otp)) ==> r == Some(BadRequest(IdentifierAndOtpRequiredMessage))
    ensures !Missing(identifier) && !Missing(otp) && !IsSixDigits(otp.value) ==>
      r == Some(BadRequest(OtpFormatMessage))
  {
    if Missing(identifier) || Missing(otp) then Some(BadRequest(IdentifierAndOtpRequiredMessage))
    else if !IsSixDigits(otp.value) then Some(BadRequest(OtpFormatMessage))
    else None
  }

  /** The check of `resendOTP` and `getOTPStatus`: only the identifier; the
      purpose is passed on unchecked. */
  function IdentifierRejection(identifier: Option<string>): (r: Option<Reply>)
    ensures r.None? <==> !Missing(identifier)
    ensures r.Some? ==> r.value == BadRequest(IdentifierRequiredMessage)
  {
    if Missing(identifier) then Some(BadRequest(IdentifierRequiredMessage)) else None
  }

  /** The reply for the outcome of `createAndSendOTP` or `resendOTP`. */
  function SentReply(res: Result<Sent>, fallback: string): (r: Reply)
    ensures res.Ok? ==> r == Reply(200, true, res.value.message, SentData(res.value))
    ensures res.Err? ==> r == ErrorReply(res.message, fallback)
  {
    match res
    case Ok(s) => Reply(200, true, s.message, SentData(s))
    case Err(m) => ErrorReply(m, fallback)
  }

  /** The reply for the outcome of `verifyOTP`. */
  function VerifyReply(res: Result<VerifyOk>): (r: Reply)
    ensures res.Ok? ==> r == Reply(200, true, res.value.message, VerifiedData(res.value))
    ensures res.Err? ==> r == ErrorReply(res.message, "Failed to verify OTP")
  {
    match res
    case Ok(v) => Reply(200, true, v.message, VerifiedData(v))
    case Err(m) => ErrorReply(m, "Failed to verify OTP")
  }

  /** Every code the service issues passes the format check, so the check
      never turns away a correctly copied code. */
  lemma IssuedCodesPassFormatCheck(identifier: string, code: string)
    requires identifier != "" && IsGeneratedCode(code)
    ensures VerifyOtpRejection(Some(identifier), Some(code)).None?
  {
    GeneratedCodeHasSixDigits(code);
  }

  /** `sendOTP` never lets an unknown purpose reach the service, while
      `resendOTP` does. */
  lemma OnlySendChecksPurpose(identifier: string, purpose: string)
    requires identifier != "" && ParsePurpose(purpose).None?
    ensures SendOtpRejection(Some(identifier), Some(purpose)) == Some(BadRequest(InvalidPurposeMessage))
    ensures IdentifierRejection(Some(identifier)).None?
  {
  }

  /** The service's error messages are never empty, so a failed call always
      shows the service's own message. */
  lemma ServiceMessagesShown(v: seq<OtpState>, identifier: string, code: string, purpose: string, now: int)
    ensures var res := VerifySpec(v, identifier, code, purpose, now).0;
      res.Err? ==> VerifyReply(res).message == res.message
  {
  }

  /** `sendOTP` */
  method SendOTP(store: OtpStore, identifier: Option<string>, purpose: Option<string>, now: int,
                 emailDelivered: bool) returns (reply: Reply)
    requires store.Valid()
    modifies store
    ensures store.Valid()
    ensures SendOtpRejection(identifier, purpose).Some? ==>
      reply == SendOtpRejection(identifier, purpose).value && store.records == old(store.records)
    ensures SendOtpRejection(identifier, purpose).None? ==>
      exists code | IsGeneratedCode(code) ::
        var (res, w) := CreateSpec(old(store.records), identifier.value, PurposeOrDefault(purpose), code,
                                   now, emailDelivered);
        reply == SentReply(res, "Failed to send OTP") && store.records == w
  {
    var rejection := SendOtpRejection(identifier, purpose);
    if rejection.Some? {
      return rejection.value;
    }
    var res := store.CreateAndSendOTP(identifier.value, PurposeOrDefault(purpose), now, emailDelivered);
    reply := SentReply(res, "Failed to send OTP");
  }

  /** `verifyOTP` */
  method VerifyOTP(store: OtpStore, identifier: Option<string>, otp: Option<string>, purpose: Option<string>,
                   now: int) returns (reply: Reply)
    requires store.Valid()
    modifies store
    ensures store.Valid()
    ensures VerifyOtpRejection(identifier, otp).Some? ==>
      reply == VerifyOtpRejection(identifier, otp).value && store.records == old(store.records)
    ensures VerifyOtpRejection(identifier, otp).None? ==>
      var (res, w) := VerifySpec(old(store.records), identifier.value, otp.value, PurposeOrDefault(purpose), now);
      reply == VerifyReply(res) && store.records == w
  {
    var rejection := VerifyOtpRejection(identifier, otp);
    if rejection.Some? {
      return rejection.value;
    }
    var res := store.VerifyOTP(identifier.value, otp.value, PurposeOrDefault(purpose), now);
    reply := VerifyReply(res);
  }

  /** `resendOTP` */
  method ResendOTP(store: OtpStore, identifier: Option<string>, purpose: Option<string>, now: int,
                   emailDelivered: bool) returns (reply: Reply)
    requires store.Valid()
    modifies store
    ensures store.Valid()
    ensures IdentifierRejection(identifier).Some? ==>
      reply == IdentifierRejection(identifier).value && store.records == old(store.records)
    ensures IdentifierRejection(identifier).None? ==>
      exists code | IsGeneratedCode(code) ::
        var (res, w) := ResendSpec(old(store.records), identifier.value, PurposeOrDefault(purpose), code,
                                   now, emailDelivered);
        reply == SentReply(res, "Failed to resend OTP") && store.records == w
  {
    var rejection := IdentifierRejection(identifier);
    if rejection.Some? {
      return rejection.value;
    }
    var res := store.ResendOTP(identifier.value, PurposeOrDefault(purpose), now, emailDelivered);
    reply := SentReply(res, "Failed to resend OTP");
  }

  /** `getOTPStatus` */
  method GetOTPStatus(store: OtpStore, identifier: Option<string>, purpose: Option<string>, now: int)
    returns (reply: Reply)
    ensures IdentifierRejection(identifier).Some? ==> reply == IdentifierRejection(identifier).value
    ensures IdentifierRejection(identifier).None? ==>
      reply.status == 200 && reply.success && reply.data.StatusData?
      && (reply.data.status.NoOtp? <==>
          forall i | 0 <= i < |store.records| :: !ForPair(store.records[i], identifier.value, PurposeOrDefault(purpose)))
    ensures IdentifierRejection(identifier).None? && reply.data.StatusData? && reply.data.status.NoOtp? ==>
      reply.data.status == NoOtp(NoStatusMessage)
    ensures IdentifierRejection(identifier).None? && reply.data.StatusData? && reply.data.status.Found? ==>
      exists i | 0 <= i < |store.records| ::
        ForPair(store.records[i], identifier.value, PurposeOrDefault(purpose))
        && reply.data.status == StatusOf(store.records[i], now)
  {
    var rejection := IdentifierRejection(identifier);
    if rejection.Some? {
      return rejection.value;
    }
    var status := store.GetOTPStatus(identifier.value, PurposeOrDefault(purpose), now);
    reply := Reply(200, true, "", StatusData(status));
  }
}
