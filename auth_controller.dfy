/** The authentication handlers: `register`, `login` with its in-memory
    login-attempt limiter, and `completeLogin`.

    The user collection is a map keyed by e-mail. Password hashing and
    comparison (bcrypt) are function parameters, the new user's `_id` is a
    parameter, and a signed token is represented by the claims it carries
    (`id`, `role`, `name`; it expires after one hour). */
module AuthController {
  import opened Js
  import opened EmailPattern
  import opened BackendValidation
  import opened OtpService

  /** `MAX_ATTEMPTS` and `LOCKOUT_TIME` */
  const MaxAttempts: int := 5
  const LockoutTime: int := 15 * 60 * 1000

  const FieldsRequiredMessage := "All fields are required"
  const InvalidEmailMessage := "Invalid email format"
  const ShortPasswordMessage := "Password must be at least 6 characters"
  const UserExistsMessage := "User already exists"
  const RegistrationOtpMessage := "Please verify your email with OTP before registration"
  const ServerErrorMessage := "Something went wrong"
  const CredentialsRequiredMessage := "Email and password are required"
  const InvalidCredentialsMessage := "Invalid credentials"
  const LoginOtpMessage := "Please verify OTP to complete login"
  const CompleteLoginOtpMessage := "OTP verification required to complete login"

  /** The roles the user schema accepts. */
  const Roles: set<string> := {"student", "educator"}

  datatype User = User(id: string, name: string, email: string, passwordHash: string, role: string)

  /** The user fields a response carries (never the password). */
  datatype UserView = UserView(id: string, name: string, email: string, role: string)

  /** The payload of a signed token. */
  datatype Claims = Claims(id: string, role: string, name: string)

  datatype AuthReply =
    | Refused(status: int, message: string)
    | OtpRequired(user: UserView, message: string)
    | Signed(status: int, user: UserView, token: Claims)

  function ViewOf(u: User): UserView
  {
    UserView(u.id, u.name, u.email, u.role)
  }

  function ClaimsOf(u: User): Claims
  {
    Claims(u.id, u.role, u.name)
  }

  /** `req.ip || 'unknown'` */
  function Address(ip: string): string
  {
    if ip == "" then "unknown" else ip
  }

  /** The limiter key `${ip}:${email}`: the address, a colon, then the
      e-mail as the last characters. */
  function LoginKey(ip: string, email: string): (k: string)
    ensures |k| == |Address(ip)| + 1 + |email|
    ensures k[..|Address(ip)|] == Address(ip) && k[|Address(ip)|] == ':' && k[|Address(ip)| + 1..] == email
  {
    var k := Address(ip) + ":" + email;
    assert k[|Address(ip)| + 1..] == email;
    k
  }

  /** From one address, two e-mails never share a limiter entry. */
  lemma SameAddressKeysDiffer(ip: string, email: string, other: string)
    ensures LoginKey(ip, email) == LoginKey(ip, other) <==> email == other
  {
    var a := Address(ip);
    if LoginKey(ip, email) == LoginKey(ip, other) {
      assert email == LoginKey(ip, email)[|a| + 1..];
    }
  }

  function LockoutMessage(minutes: int): string
  {
    "Too many failed login attempts. Try again in " + IntToString(minutes) + " minutes."
  }

  /** The verdict of `login`'s checks before the OTP step. */
  datatype Gate = MissingFields | LockedOut(minutes: int) | BadCredentials | CredentialsOk(user: User)

  /** `login` up to the OTP step: missing fields, then the lock on
      `ip:email`, then the user lookup and the password comparison. The
      inline lock test agrees with `isUserLockedOut` and
      `getRemainingLockoutTime` at every clock reading from the epoch on. */
  function LoginGate(m: map<string, Attempt>, users: map<string, User>, email: Option<string>,
                     password: Option<string>, ip: string, now: int,
                     matches: (string, string) -> bool): (g: Gate)
    ensures g.MissingFields? <==> Missing(email) || Missing(password)
    ensures !Missing(email) && !Missing(password) && now >= 0 ==>
      var key := LoginKey(ip, email.value);
      (g.LockedOut? <==> IsUserLockedOut(m, key, now))
      && (g.LockedOut? ==> g.minutes == RemainingLockoutTime(m, key, now) && g.minutes >= 1)
      && (g.CredentialsOk? <==> !IsUserLockedOut(m, key, now) && email.value in users
                                && matches(password.value, users[email.value].passwordHash))
      && (g.CredentialsOk? ==> g.user == users[email.value])
  {
    if Missing(email) || Missing(password) then MissingFields
    else
      var key := LoginKey(ip, email.value);
      var attempt := EntryOrFresh(m, key);
      if attempt.lockUntil > now then LockedOut(CeilDiv(attempt.lockUntil - now, 60000))
      else if email.value !in users then BadCredentials
      else if !matches(password.value, users[email.value].passwordHash) then BadCredentials
      else CredentialsOk(users[email.value])
  }

  /** The checks of `register` before the database is consulted for the OTP:
      all four fields, the e-mail pattern, the password length, then an
      existing user. */
  function RegisterRejection(users: map<string, User>, name: Option<string>, email: Option<string>,
                             password: Option<string>, role: Option<string>): (r: Option<AuthReply>)
    ensures (Missing(name) || Missing(email) || Missing(password) || Missing(role)) ==>
      r == Some(Refused(400, FieldsRequiredMessage))
    ensures !(Missing(name) || Missing(email) || Missing(password) || Missing(role)) ==>
      (!MatchesEmailRegex(email.value) ==> r == Some(Refused(400, InvalidEmailMessage)))
      && (MatchesEmailRegex(email.value) && Utf16Length(password.value) < 6 ==> r == Some(Refused(400, ShortPasswordMessage)))
      && (MatchesEmailRegex(email.value) && Utf16Length(password.value) >= 6 && email.value in users ==>
            r == Some(Refused(400, UserExistsMessage)))
      && (r.None? <==> MatchesEmailRegex(email.value) && Utf16Length(password.value) >= 6 && email.value !in users)
  {
    if Missing(name) || Missing(email) || Missing(password) || Missing(role) then
      Some(Refused(400, FieldsRequiredMessage))
    else if !MatchesEmailRegex(email.value) then Some(Refused(400, InvalidEmailMessage))
    else if Utf16Length(password.value) < 6 then Some(Refused(400, ShortPasswordMessage))
    else if email.value in users then Some(Refused(400, UserExistsMessage))
    else None
  }

  /** A status that lets the caller through: a record exists and is verified. */
  predicate VerifiedStatus(s: OtpStatus)
  {
    s.Found? && s.isVerified
  }

  /** The pair has a record, and every record of it is verified: whichever
      one `findOne` returns, the status lets the caller through. */
  predicate AllRecordsVerified(records: seq<OtpModel.OtpState>, identifier: string, purpose: string)
  {
    (exists i | 0 <= i < |records| :: ForPair(records[i], identifier, purpose))
    && forall i | 0 <= i < |records| && ForPair(records[i], identifier, purpose) :: records[i].isVerified
  }

  /** Some record of the pair is verified. */
  predicate HasVerifiedRecord(records: seq<OtpModel.OtpState>, identifier: string, purpose: string)
  {
    exists i | 0 <= i < |records| :: ForPair(records[i], identifier, purpose) && records[i].isVerified
  }

  /** The e-mail check of `register` accepts every address the validation
      utility's `validateEmail` accepts ... */
  lemma RegisterEmailCheckIsWeaker(email: string)
    ensures ValidateEmail(email) ==> MatchesEmailRegex(email)
  {
    EmailShapeIsRegex(email);
  }

  /** ... and more: it lets a ".." in the local part through. */
  lemma RegisterAcceptsDoubleDot()
    ensures MatchesEmailRegex("a..b@c.d") && !ValidateEmail("a..b@c.d")
  {
    DoubleDotAddressMatches();
    DoubleDotAddressRefused();
  }

  lemma DoubleDotAddressMatches()
    ensures MatchesEmailRegex("a..b@c.d")
  {
    var s := "a..b@c.d";
    assert s[..4] == "a..b" && s[5..6] == "c" && s[7..] == "d";
    assert SplitMatches(s, 4, 6);
  }

  lemma DoubleDotAddressRefused()
    ensures !ValidateEmail("a..b@c.d")
  {
    var s := "a..b@c.d";
    assert IndexOf(s, '@') == 4;
    assert HasDoubleDot(s[..4]) by { assert s[..4][1] == '.' && s[..4][2] == '.'; }
    HasDoubleDotIsIncludes(s[..4]);
  }

  /** With the defaults, a fresh key can fail five times: the first four
      failures leave it unlocked, so the next login again reaches the password
      check, and after the fifth every login is refused for fifteen minutes. */
  lemma FiveFailedLoginsLock(m: map<string, Attempt>, users: map<string, User>, email: string,
                             password: string, ip: string, now: int,
                             matches: (string, string) -> bool, n: nat)
    requires email != "" && password != "" && now >= 0 && n <= 5
    requires LoginKey(ip, email) !in m
    requires email !in users || !matches(password, users[email].passwordHash)
    ensures var g := LoginGate(Failures(m, LoginKey(ip, email), n, now), users, Some(email), Some(password),
                               ip, now, matches);
      (n < 5 ==> g == BadCredentials) && (n == 5 ==> g == LockedOut(15))
  {
    var key := LoginKey(ip, email);
    if n >= 1 {
      FifthFailureLocks(m, key, n, now);
    }
    var r := Failures(m, key, n, now);
    assert n == 5 ==> RemainingLockoutTime(r, key, now) == CeilDiv(15 * 60 * 1000, 60000) == 15;
  }

  /** The controller state: the module-level `loginAttempts` map, the user
      collection and the shared OTP service. */
  class Auth {
    const loginAttempts: AttemptTable
    var users: map<string, User>
    const otp: OtpStore

    constructor(otp: OtpStore)
      ensures this.otp == otp && users == map[] && fresh(loginAttempts) && loginAttempts.entries == map[]
    {
      this.otp := otp;
      users := map[];
      loginAttempts := new AttemptTable();
    }

    /** The controller's own `updateLoginAttempts(key, success)`, with
        `MAX_ATTEMPTS` and `LOCKOUT_TIME`. */
    method UpdateLoginAttempts(key: string, success: bool, now: int)
      modifies loginAttempts
      ensures loginAttempts.entries == AfterUpdate(old(loginAttempts.entries), key, success, MaxAttempts, LockoutTime, now)
    {
      loginAttempts.UpdateLoginAttempts(key, success, MaxAttempts, LockoutTime, now);
    }

    /** `register`; `role` must also pass the schema's enum, or saving fails. */
    method Register(name: Option<string>, email: Option<string>, password: Option<string>, role: Option<string>,
                    now: int, newId: string, hash: string -> string) returns (reply: AuthReply)
      modifies this
      ensures RegisterRejection(old(users), name, email, password, role).Some? ==>
        reply == RegisterRejection(old(users), name, email, password, role).value && users == old(users)
      ensures RegisterRejection(old(users), name, email, password, role).None?
              && !HasVerifiedRecord(otp.records, email.value, "registration") ==>
        reply == Refused(400, RegistrationOtpMessage) && users == old(users)
      ensures reply.Signed? ==>
        RegisterRejection(old(users), name, email, password, role).None?
        && HasVerifiedRecord(otp.records, email.value, "registration") && role.value in Roles
        && var u := User(newId, name.value, email.value, hash(password.value), role.value);
           users == old(users)[email.value := u] && reply == Signed(201, ViewOf(u), ClaimsOf(u))
      ensures !reply.Signed? ==> users == old(users)
      ensures RegisterRejection(old(users), name, email, password, role).None?
              && AllRecordsVerified(otp.records, email.value, "registration") ==>
        (role.value in Roles ==> reply.Signed?) && (role.value !in Roles ==> reply == Refused(500, ServerErrorMessage))
    {
      var rejection := RegisterRejection(users, name, email, password, role);
      if rejection.Some? {
        return rejection.value;
      }
      var status := otp.GetOTPStatus(email.value, "registration", now);
      if !VerifiedStatus(status) {
        return Refused(400, RegistrationOtpMessage);
      }
      if role.value !in Roles {
        return Refused(500, ServerErrorMessage);
      }
      var u := User(newId, name.value, email.value, hash(password.value), role.value);
      users := users[email.value := u];
      reply := Signed(201, ViewOf(u), ClaimsOf(u));
    }

    /** `login` at instant `now`, from address `ip`. */
    method Login(email: Option<string>, password: Option<string>, ip: string, now: int,
                 matches: (string, string) -> bool) returns (reply: AuthReply)
      modifies loginAttempts
      ensures var g := LoginGate(old(loginAttempts.entries), users, email, password, ip, now, matches);
        (g.MissingFields? ==> reply == Refused(400, CredentialsRequiredMessage)
                              && loginAttempts.entries == old(loginAttempts.entries))
        && (g.LockedOut? ==> reply == Refused(429, LockoutMessage(g.minutes))
                             && loginAttempts.entries == old(loginAttempts.entries))
        && (g.BadCredentials? ==>
              (reply == Refused(400, InvalidCredentialsMessage)
               && loginAttempts.entries == AfterUpdate(old(loginAttempts.entries), LoginKey(ip, email.value),
                                                       false, MaxAttempts, LockoutTime, now)))
        && (g.CredentialsOk? ==>
              (reply == OtpRequired(ViewOf(g.user), LoginOtpMessage)
               && loginAttempts.entries == old(loginAttempts.entries))
              || (reply == Signed(200, ViewOf(g.user), ClaimsOf(g.user))
                  && HasVerifiedRecord(otp.records, email.value, "login")
                  && loginAttempts.entries == old(loginAttempts.entries) - {LoginKey(ip, email.value)}))
        && (g.CredentialsOk? && !HasVerifiedRecord(otp.records, email.value, "login") ==> reply.OtpRequired?)
        && (g.CredentialsOk? && AllRecordsVerified(otp.records, email.value, "login") ==>
              reply == Signed(200, ViewOf(g.user), ClaimsOf(g.user)))
    {
      if Missing(email) || Missing(password) {
        return Refused(400, CredentialsRequiredMessage);
      }
      var key := LoginKey(ip, email.value);
      var attempt := EntryOrFresh(loginAttempts.entries, key);
      if attempt.lockUntil > now {
        var remainingMinutes := CeilDiv(attempt.lockUntil - now, 60000);
        return Refused(429, LockoutMessage(remainingMinutes));
      }
      if email.value !in users {
        UpdateLoginAttempts(key, false, now);
        return Refused(400, InvalidCredentialsMessage);
      }
      var user := users[email.value];
      if !matches(password.value, user.passwordHash) {
        UpdateLoginAttempts(key, false, now);
        return Refused(400, InvalidCredentialsMessage);
      }
      var status := otp.GetOTPStatus(email.value, "login", now);
      if !VerifiedStatus(status) {
        return OtpRequired(ViewOf(user), LoginOtpMessage);
      }
      loginAttempts.Delete(key);
      reply := Signed(200, ViewOf(user), ClaimsOf(user));
    }

    /** `completeLogin`: the same credential checks, without the limiter. */
    method CompleteLogin(email: Option<string>, password: Option<string>, now: int,
                         matches: (string, string) -> bool) returns (reply: AuthReply)
      ensures (Missing(email) || Missing(password)) ==> reply == Refused(400, CredentialsRequiredMessage)
      ensures !(Missing(email) || Missing(password)) ==>
        var ok := email.value in users && matches(password.value, users[email.value].passwordHash);
        (!ok ==> reply == Refused(400, InvalidCredentialsMessage))
        && (ok && !HasVerifiedRecord(otp.records, email.value, "login") ==> reply == Refused(400, CompleteLoginOtpMessage))
        && (ok ==> reply == Refused(400, CompleteLoginOtpMessage)
                   || reply == Signed(200, ViewOf(users[email.value]), ClaimsOf(users[email.value])))
      ensures reply.Signed? ==> HasVerifiedRecord(otp.records, email.value, "login")
      ensures !(Missing(email) || Missing(password)) && email.value in users
              && matches(password.value, users[email.value].passwordHash)
              && AllRecordsVerified(otp.records, email.value, "login") ==>
        reply == Signed(200, ViewOf(users[email.value]), ClaimsOf(users[email.value]))
    {
      if Missing(email) || Missing(password) {
        return Refused(400, CredentialsRequiredMessage);
      }
      if email.value !in users {
        return Refused(400, InvalidCredentialsMessage);
      }
      var user := users[email.value];
      if !matches(password.value, user.passwordHash) {
        return Refused(400, InvalidCredentialsMessage);
      }
      var status := otp.GetOTPStatus(email.value, "login", now);
      if !VerifiedStatus(status) {
        return Refused(400, CompleteLoginOtpMessage);
      }
      reply := Signed(200, ViewOf(user), ClaimsOf(user));
    }
  }
}
