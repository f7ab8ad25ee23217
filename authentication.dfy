/** The sign-in / sign-up page: which mode the route selects, the form
    check that picks the first error, what is sent to the backend, and
    what the page does with the answer. */
module Authentication {
  import opened Js
  import opened EmailPattern
  import AuthController
  import BackendValidation
  import AppContext

  /** `/login`, or `/auth` with the `#login` fragment. */
  predicate IsLoginPage(pathname: string, hash: string)
  {
    pathname == "/login" || (pathname == "/auth" && hash == "#login")
  }

  /** `validateForm`: the first failed check's message, `None` when the
      form may be sent. */
  function FormError(isLogin: bool, email: string, password: string, name: string, username: string): (e: Option<string>)
    ensures e.None? <==>
      email != "" && password != "" && (isLogin || (name != "" && username != ""))
      && MatchesEmailRegex(email) && Utf16Length(password) >= 6
    ensures email == "" ==> e == Some("Email is required")
    ensures email != "" && password == "" ==> e == Some("Password is required")
  {
    if email == "" then Some("Email is required")
    else if password == "" then Some("Password is required")
    else if !isLogin && name == "" then Some("Name is required")
    else if !isLogin && username == "" then Some("Username is required")
    else if !MatchesEmailRegex(email) then Some("Please enter a valid email address")
    else if Utf16Length(password) < 6 then Some("Password must be at least 6 characters long")
    else None
  }

  /** The sign-in form never asks for a name or a username. */
  lemma LoginIgnoresNames(email: string, password: string, n1: string, u1: string, n2: string, u2: string)
    ensures FormError(true, email, password, n1, u1) == FormError(true, email, password, n2, u2)
  {
  }

  /** The page applies the same e-mail pattern and password length as
      `register`: a sign-up form it accepts, sent with a role for a new
      address, gets past all of `register`'s checks. */
  lemma SentFormPassesRegisterChecks(users: map<string, AuthController.User>, email: string, password: string,
                                     name: string, username: string, role: string)
    requires FormError(false, email, password, name, username).None? && role != "" && email !in users
    ensures AuthController.RegisterRejection(users, Some(name), Some(email), Some(password), Some(role)).None?
  {
  }

  /** The request body. */
  datatype Request =
    | LoginRequest(email: string, password: string)
    | RegisterRequest(name: string, username: string, email: string, password: string)

  function RequestFor(isLogin: bool, email: string, password: string, name: string, username: string): (r: Request)
    ensures isLogin <==> r.LoginRequest?
    ensures r.email == email && r.password == password
  {
    if isLogin then LoginRequest(email, password) else RegisterRequest(name, username, email, password)
  }

  /** A sign-in the page sends always carries both fields `login` demands. */
  lemma LoginRequestHasFields(email: string, password: string, m: map<string, BackendValidation.Attempt>,
                              users: map<string, AuthController.User>, ip: string, now: int,
                              matches: (string, string) -> bool)
    requires FormError(true, email, password, "", "").None?
    ensures !AuthController.LoginGate(m, users, Some(email), Some(password), ip, now, matches).MissingFields?
  {
  }

  /** The sign-up request carries no `role`, and `register` refuses any
      request without one before it reads the other fields. */
  lemma RegisterRequestLacksRole(users: map<string, AuthController.User>, email: string, password: string, name: string)
    ensures AuthController.RegisterRejection(users, Some(name), Some(email), Some(password), None)
         == Some(AuthController.Refused(400, AuthController.FieldsRequiredMessage))
  {
  }

  /** `err?.response?.data?.message || err.message || "Authentication failed"` */
  function ErrorMessage(responseMessage: Option<string>, errMessage: Option<string>): (m: string)
    ensures !Missing(responseMessage) ==> m == responseMessage.value
    ensures Missing(responseMessage) && !Missing(errMessage) ==> m == errMessage.value
    ensures Missing(responseMessage) && Missing(errMessage) ==> m == "Authentication failed"
  {
    if !Missing(responseMessage) then responseMessage.value
    else if !Missing(errMessage) then errMessage.value
    else "Authentication failed"
  }

  class AuthenticationPage {
    var error: string
    var success: string
    var isLoading: bool
    var storage: map<string, string>
    var location: string

    constructor(storage0: map<string, string>)
      ensures error == "" && success == "" && !isLoading && storage == storage0 && location == ""
    {
      error, success, isLoading, storage, location := "", "", false, storage0, "";
    }

    /** `validateForm`: the error is cleared, then set to the first failure. */
    method ValidateForm(isLogin: bool, email: string, password: string, name: string, username: string)
      returns (ok: bool)
      modifies this
      ensures ok <==> FormError(isLogin, email, password, name, username).None?
      ensures error == (if ok then "" else FormError(isLogin, email, password, name, username).value)
      ensures success == old(success) && isLoading == old(isLoading) && storage == old(storage) && location == old(location)
    {
      error := "";
      var e := FormError(isLogin, email, password, name, username);
      if e.Some? {
        error := e.value;
        return false;
      }
      return true;
    }

    /** A successful sign-in: the user and the token are stored and, after
        the delay, the page goes home. */
    method LoginSucceeded(userJson: string, token: string)
      modifies this
      ensures storage == old(storage)["user" := userJson]["token" := token]
      ensures success == "Login successful!" && error == "" && !isLoading && location == "/"
    {
      error, success := "", "Login successful!";
      storage := storage["user" := userJson]["token" := token];
      isLoading := false;
      location := "/";
    }

    /** A successful sign-up: the page goes to the sign-in form. */
    method RegisterSucceeded()
      modifies this
      ensures success == "Registration successful! Please log in." && error == "" && !isLoading
      ensures location == "/auth#login" && storage == old(storage)
    {
      error, success := "", "Registration successful! Please log in.";
      isLoading := false;
      location := "/auth#login";
    }

    /** A failed request. */
    method RequestFailed(responseMessage: Option<string>, errMessage: Option<string>)
      modifies this
      ensures error == ErrorMessage(responseMessage, errMessage) && success == "" && !isLoading
      ensures storage == old(storage) && location == old(location)
    {
      error, success := ErrorMessage(responseMessage, errMessage), "";
      isLoading := false;
    }
  }

  /** After a sign-in whose stored user parses, the context finds that user
      when it initialises. */
  lemma StoredLoginIsFound(storage: map<string, string>, userJson: string, token: string,
                           parse: string -> Option<AppContext.StoredUser>)
    requires userJson != "" && token != "" && parse(userJson).Some?
    ensures AppContext.AuthFromStorage(storage["user" := userJson]["token" := token], parse).user == parse(userJson)
  {
  }

  /** The page a sign-up sends the visitor to is the sign-in form. */
  lemma RegisterLeadsToLogin()
    ensures IsLoginPage("/auth", "#login") && !IsLoginPage("/auth", "")
  {
  }
}
