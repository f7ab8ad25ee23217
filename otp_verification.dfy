/** The one-time-password panel: the input that keeps at most six digits,
    the guard before a verification request, the answers to verify and
    resend, and the one-second countdown that holds the resend button back
    for sixty seconds after a resend. */
module OtpVerification {
  import opened Js
  import OtpService

  /** `value.replace(/\D/g, '')` */
  function DigitsOnly(s: string): (r: string)
    ensures |r| <= |s| && AllDigits(r)
    ensures AllDigits(s) ==> r == s
  {
    if s == [] then []
    else
      var rest := DigitsOnly(s[..|s| - 1]);
      if IsDigit(s[|s| - 1]) then rest + [s[|s| - 1]] else rest
  }

  /** The input's filter: the digits, then the first six of them. */
  function FilterOtp(s: string): (r: string)
    ensures |r| <= 6 && AllDigits(r)
    ensures |DigitsOnly(s)| <= 6 ==> r == DigitsOnly(s)
    ensures |DigitsOnly(s)| > 6 ==> r == DigitsOnly(s)[..6]
    ensures Utf16Length(r) == |r|
  {
    var d := DigitsOnly(s);
    var r := if |d| <= 6 then d else d[..6];
    DigitsLength(r);
    r
  }

  /** Filtering what is already shown changes nothing. */
  lemma FilterOtpIdempotent(s: string)
    ensures FilterOtp(FilterOtp(s)) == FilterOtp(s)
  {
  }

  /** Every code the backend generates survives the filter whole and
      enables the verify button. */
  lemma GeneratedCodeTypesThrough(code: string)
    requires OtpService.IsGeneratedCode(code)
    ensures FilterOtp(code) == code && !VerifyDisabled(false, FilterOtp(code))
  {
    OtpService.GeneratedCodeHasSixDigits(code);
  }

  /** `isLoading || otp.length !== 6` */
  predicate VerifyDisabled(isLoading: bool, otp: string)
  {
    isLoading || Utf16Length(otp) != 6
  }

  /** `isLoading || countdown > 0` */
  predicate ResendDisabled(isLoading: bool, countdown: int)
  {
    isLoading || countdown > 0
  }

  /** The resend button's text. */
  function ResendLabel(countdown: int): (s: string)
    ensures countdown <= 0 ==> s == "Resend OTP"
  {
    if countdown > 0 then "Resend in " + IntToString(countdown) + "s" else "Resend OTP"
  }

  /** `handleVerifyOTP`'s guard: true when the request goes out. */
  predicate VerifyGuardPasses(otp: string)
  {
    otp != "" && Utf16Length(otp) == 6
  }

  /** The guard never stops a click the enabled button lets through, and a
      request only ever carries six digits from the input. */
  lemma EnabledButtonPassesGuard(raw: string)
    ensures !VerifyDisabled(false, FilterOtp(raw)) ==> VerifyGuardPasses(FilterOtp(raw))
    ensures VerifyGuardPasses(FilterOtp(raw)) ==> |FilterOtp(raw)| == 6 && AllDigits(FilterOtp(raw))
  {
  }

  /** One effect run of the countdown. */
  function Tick(countdown: int): (c: int)
    ensures countdown > 0 ==> c == countdown - 1
    ensures countdown <= 0 ==> c == countdown
  {
    if countdown > 0 then countdown - 1 else countdown
  }

  /** The countdown after `n` seconds. */
  function Ticked(countdown: int, n: nat): int
  {
    if n == 0 then countdown else Tick(Ticked(countdown, n - 1))
  }

  lemma {:induction false} TickedCountsDown(countdown: nat, n: nat)
    ensures Ticked(countdown, n) == if n <= countdown then countdown - n else 0
  {
    if n > 0 {
      TickedCountsDown(countdown, n - 1);
    }
  }

  /** After a resend the button stays disabled for exactly sixty seconds. */
  lemma ResendHeldSixtySeconds(n: nat)
    ensures ResendDisabled(false, Ticked(60, n)) <==> n < 60
  {
    TickedCountsDown(60, n);
  }

  /** The message kinds; `Info` is the default of `showMessage`, which every
      call site overrides. */
  datatype MessageType = NoType | Info | Success | Error

  class OtpPanel {
    var otp: string
    var message: string
    var messageType: MessageType
    var countdown: int

    /** The panel shows at most six digits. */
    predicate Valid()
      reads this
    {
      |otp| <= 6 && AllDigits(otp)
    }

    constructor()
      ensures Valid() && otp == "" && message == "" && messageType == NoType && countdown == 0
    {
      otp, message, messageType, countdown := "", "", NoType, 0;
    }

    /** The input's `onChange`. */
    method Input(raw: string)
      modifies this
      ensures Valid() && otp == FilterOtp(raw)
      ensures message == old(message) && messageType == old(messageType) && countdown == old(countdown)
    {
      otp := FilterOtp(raw);
    }

    /** The countdown effect firing once. */
    method TickCountdown()
      requires Valid()
      modifies this
      ensures Valid()
      ensures countdown == Tick(old(countdown))
      ensures otp == old(otp) && message == old(message) && messageType == old(messageType)
    {
      if countdown > 0 {
        countdown := countdown - 1;
      }
    }

    /** `handleVerifyOTP` up to the request: `sent` tells whether it goes out. */
    method Verify() returns (sent: bool)
      requires Valid()
      modifies this
      ensures Valid()
      ensures sent <==> VerifyGuardPasses(otp)
      ensures sent ==> |otp| == 6 && AllDigits(otp)
      ensures !sent ==> message == "Please enter a 6-digit OTP" && messageType == Error
      ensures sent ==> message == old(message) && messageType == old(messageType)
      ensures otp == old(otp) && countdown == old(countdown)
    {
      if otp == "" || Utf16Length(otp) != 6 {
        message, messageType := "Please enter a 6-digit OTP", Error;
        return false;
      }
      DigitsLength(otp);
      return true;
    }

    /** The verification answer; `dataMessage` is the server's message. */
    method VerifyAnswered(success: bool, dataMessage: string)
      requires Valid()
      modifies this
      ensures Valid()
      ensures success ==> message == "OTP verified successfully!" && messageType == Success
      ensures !success ==> message == dataMessage && messageType == Error
      ensures otp == old(otp) && countdown == old(countdown)
    {
      if success {
        message, messageType := "OTP verified successfully!", Success;
      } else {
        message, messageType := dataMessage, Error;
      }
    }

    /** The resend answer: a success starts the sixty-second hold. */
    method ResendAnswered(success: bool, dataMessage: string)
      requires Valid()
      modifies this
      ensures Valid()
      ensures success ==> message == "OTP resent successfully!" && messageType == Success && countdown == 60
      ensures !success ==> message == dataMessage && messageType == Error && countdown == old(countdown)
      ensures otp == old(otp)
    {
      if success {
        message, messageType := "OTP resent successfully!", Success;
        countdown := 60;
      } else {
        message, messageType := dataMessage, Error;
      }
    }

    /** A request that could not reach the server. */
    method RequestFailed(isVerify: bool)
      requires Valid()
      modifies this
      ensures Valid()
      ensures message == (if isVerify then "Failed to verify OTP. Please try again." else "Failed to resend OTP. Please try again.")
      ensures messageType == Error && otp == old(otp) && countdown == old(countdown)
    {
      message := if isVerify then "Failed to verify OTP. Please try again." else "Failed to resend OTP. Please try again.";
      messageType := Error;
    }

    /** The timer five seconds after a message. */
    method ClearMessage()
      requires Valid()
      modifies this
      ensures Valid()
      ensures message == "" && messageType == old(messageType) && otp == old(otp) && countdown == old(countdown)
    {
      message := "";
    }
  }
}
