/** The shared sign-in / sign-up form component: its initial fields, the
    per-field error map its check builds, the clearing of a field's error
    on edit, the trimmed body it sends, and where a signed-in user goes.
    The form and the errors are maps keyed by the inputs' `name`
    attributes. */
module AuthForm {
  import opened Js
  import opened EmailPattern
  import AuthController

  /** The inputs' `name` attributes. */
  datatype FieldName = Name | Email | Password | Role

  /** `initialForm` */
  function InitialForm(isLogin: bool): (f: map<FieldName, string>)
    ensures isLogin ==> f.Keys == {Email, Password}
    ensures !isLogin ==> f.Keys == {Name, Email, Password, Role} && f[Role] == "student"
    ensures forall k | k in f && k != Role :: f[k] == ""
  {
    if isLogin then map[Email := "", Password := ""]
    else map[Name := "", Email := "", Password := "", Role := "student"]
  }

  /** A field's value; every field read here is present from the start. */
  function Field(form: map<FieldName, string>, key: FieldName): string
  {
    if key in form then form[key] else ""
  }

  function NameError(isLogin: bool, form: map<FieldName, string>): Option<string>
  {
    if !isLogin && Trim(Field(form, Name)) == "" then Some("Name is required") else None
  }

  function EmailError(form: map<FieldName, string>): Option<string>
  {
    if Trim(Field(form, Email)) == "" then Some("Email is required")
    else if !MatchesLooseEmailRegex(Field(form, Email)) then Some("Email is invalid")
    else None
  }

  function PasswordError(form: map<FieldName, string>): Option<string>
  {
    if Field(form, Password) == "" then Some("Password is required")
    else if Utf16Length(Field(form, Password)) < 6 then Some("Password must be at least 6 characters")
    else None
  }

  /** The message `validateForm` records for a field, if any. */
  function ErrorFor(isLogin: bool, form: map<FieldName, string>, k: FieldName): Option<string>
  {
    match k
    case Name => NameError(isLogin, form)
    case Email => EmailError(form)
    case Password => PasswordError(form)
    case Role => None
  }

  /** `validateForm`'s `newErrors`. */
  function FormErrors(isLogin: bool, form: map<FieldName, string>): (errors: map<FieldName, string>)
    ensures forall k :: k in errors <==> ErrorFor(isLogin, form, k).Some?
    ensures forall k | k in errors :: errors[k] == ErrorFor(isLogin, form, k).value
  {
    map k | k in {Name, Email, Password, Role} && ErrorFor(isLogin, form, k).Some? :: ErrorFor(isLogin, form, k).value
  }

  /** The form is sent exactly when no check fails; sign-in never checks
      the name. */
  lemma FormValidIff(isLogin: bool, form: map<FieldName, string>)
    ensures |FormErrors(isLogin, form)| == 0 <==>
      (isLogin || Trim(Field(form, Name)) != "")
      && Trim(Field(form, Email)) != "" && MatchesLooseEmailRegex(Field(form, Email))
      && Utf16Length(Field(form, Password)) >= 6
  {
    var errors := FormErrors(isLogin, form);
    if |errors| == 0 {
      assert errors == map[];
      assert Name !in errors && Email !in errors && Password !in errors;
    } else {
      var k :| k in errors;
      assert ErrorFor(isLogin, form, k).Some?;
    }
  }

  /** `trimmedForm`: every value trimmed. */
  function TrimmedForm(form: map<FieldName, string>): (r: map<FieldName, string>)
    ensures r.Keys == form.Keys && forall k | k in form :: r[k] == Trim(form[k])
  {
    map k | k in form :: Trim(form[k])
  }

  /** The check reads the untrimmed form but the trimmed one is sent: a
      password of five spaces and a letter passes the six-character check
      and reaches `register` as one character, which it refuses. */
  lemma TrimmedPasswordRefused(form: map<FieldName, string>, users: map<string, AuthController.User>)
    requires form.Keys == {Name, Email, Password, Role} && form[Password] == "     a"
    requires Trim(form[Name]) != "" && Trim(form[Role]) != "" && MatchesEmailRegex(Trim(form[Email]))
    ensures Password !in FormErrors(false, form)
    ensures var t := TrimmedForm(form);
      AuthController.RegisterRejection(users, Some(t[Name]), Some(t[Email]), Some(t[Password]), Some(t[Role]))
        == Some(AuthController.Refused(400, AuthController.ShortPasswordMessage))
  {
    assert PasswordError(form).None? by {
      assert Field(form, Password) == "     a";
    }
    TrimPaddedLetter();
    var t := TrimmedForm(form);
    ShortPasswordRefused(users, t[Name], t[Email], t[Password], t[Role]);
  }

  /** `register` on filled fields, a valid address and a one-letter password. */
  lemma ShortPasswordRefused(users: map<string, AuthController.User>, name: string, email: string,
                             password: string, role: string)
    requires name != "" && role != "" && MatchesEmailRegex(email) && password == "a"
    ensures AuthController.RegisterRejection(users, Some(name), Some(email), Some(password), Some(role))
         == Some(AuthController.Refused(400, AuthController.ShortPasswordMessage))
  {
  }

  lemma TrimPaddedLetter()
    ensures Trim("     a") == "a"
  {
    var p := "     a";
    forall k | 0 <= k < 5 ensures p[k] == ' ' {
    }
    SpacesThenLetter(p, 5);
  }

  /** `n` spaces and then a character that is not white space trim to that
      character. */
  lemma {:induction false} SpacesThenLetter(s: string, n: nat)
    requires |s| == n + 1 && !IsSpace(s[n])
    requires forall k | 0 <= k < n :: s[k] == ' '
    ensures TrimStart(s) == [s[n]] && Trim(s) == [s[n]]
  {
    if n > 0 {
      SpacesThenLetter(s[1..], n - 1);
    } else {
      assert s == [s[0]];
    }
  }

  /** The unanchored pattern of the form admits addresses that
      `register`'s anchored pattern refuses; `SpacedEmailAdmitted` gives
      one. */
  lemma LooseEmailRefused(form: map<FieldName, string>, users: map<string, AuthController.User>)
    requires form.Keys == {Name, Email, Password, Role}
    requires Trim(form[Name]) != "" && Trim(form[Password]) != "" && Trim(form[Role]) != ""
    requires Trim(form[Email]) != "" && MatchesLooseEmailRegex(form[Email]) && !MatchesEmailRegex(Trim(form[Email]))
    ensures Email !in FormErrors(false, form)
    ensures var t := TrimmedForm(form);
      AuthController.RegisterRejection(users, Some(t[Name]), Some(t[Email]), Some(t[Password]), Some(t[Role]))
        == Some(AuthController.Refused(400, AuthController.InvalidEmailMessage))
  {
    assert EmailError(form).None? by {
      assert Field(form, Email) == form[Email];
    }
    var t := TrimmedForm(form);
    InvalidEmailRefused(users, t[Name], t[Email], t[Password], t[Role]);
  }

  /** `register` on filled fields and an address the anchored pattern refuses. */
  lemma InvalidEmailRefused(users: map<string, AuthController.User>, name: string, email: string,
                            password: string, role: string)
    requires name != "" && role != "" && password != "" && email != "" && !MatchesEmailRegex(email)
    ensures AuthController.RegisterRejection(users, Some(name), Some(email), Some(password), Some(role))
         == Some(AuthController.Refused(400, AuthController.InvalidEmailMessage))
  {
  }

  /** "a b@c.d" passes the form's test, and trimming leaves its inner
      space, which the anchored pattern refuses. */
  lemma SpacedEmailAdmitted()
    ensures var e := "a b@c.d";
      Trim(e) != "" && MatchesLooseEmailRegex(e) && !MatchesEmailRegex(Trim(e))
  {
    LooseAcceptsSpace();
    TrimSpacedEmail();
  }

  lemma TrimSpacedEmail()
    ensures Trim("a b@c.d") == "a b@c.d"
  {
    var e := "a b@c.d";
    assert !IsSpace(e[0]) && !IsSpace(e[|e| - 1]);
    assert TrimStart(e) == e;
  }

  /** Where a signed-in user is sent. */
  function RedirectAfterLogin(role: Option<string>): (path: string)
    ensures path == "/educator" <==> role == Some("educator")
    ensures path == "/" <==> role != Some("educator")
  {
    if role == Some("educator") then "/educator" else "/"
  }

  /** The message after a refused request. */
  function FailureMessage(isLogin: bool, dataMessage: Option<string>): (m: string)
    ensures !Missing(dataMessage) ==> m == dataMessage.value
    ensures Missing(dataMessage) ==> m == (if isLogin then "Login failed" else "Registration failed")
  {
    if !Missing(dataMessage) then dataMessage.value else if isLogin then "Login failed" else "Registration failed"
  }

  class AuthFormState {
    var form: map<FieldName, string>
    var errors: map<FieldName, string>
    var message: string
    var isLoading: bool

    constructor(isLogin: bool)
      ensures form == InitialForm(isLogin) && errors == map[] && message == "" && !isLoading
    {
      form, errors, message, isLoading := InitialForm(isLogin), map[], "", false;
    }

    /** `validateForm` */
    method ValidateForm(isLogin: bool) returns (ok: bool)
      modifies this
      ensures errors == FormErrors(isLogin, form) && (ok <==> |errors| == 0)
      ensures form == old(form) && message == old(message) && isLoading == old(isLoading)
    {
      errors := FormErrors(isLogin, form);
      ok := |errors| == 0;
    }

    /** `handleChange`: the field takes the value, and a shown error for it
        is blanked. */
    method HandleChange(name: FieldName, value: string)
      modifies this
      ensures form == old(form)[name := value]
      ensures errors == (if name in old(errors) && old(errors)[name] != "" then old(errors)[name := ""] else old(errors))
      ensures message == old(message) && isLoading == old(isLoading)
    {
      form := form[name := value];
      if name in errors && errors[name] != "" {
        errors := errors[name := ""];
      }
    }
  }

  /** After an edit no error is shown for that field, and the other fields'
      errors stay as they were. */
  lemma EditClearsOwnError(errors: map<FieldName, string>, name: FieldName, other: FieldName)
    requires other != name
    ensures var after := if name in errors && errors[name] != "" then errors[name := ""] else errors;
      !(name in after && after[name] != "")
      && (other in after <==> other in errors) && (other in after ==> after[other] == errors[other])
  {
  }
}
