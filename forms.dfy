/** The sign-in form: its two field rules, the page a signed-in user is
    sent to, and what a submission does with the authentication context. */
module LoginForm {
  import opened Common
  import opened Records
  import opened Validation
  import opened AuthContext
  import opened PrivateRoute
  import opened AppRoutes

  const PasswordAtLeastSix := "Password must be at least 6 characters"

  /** The password rule of the sign-in form: required, then 6 UTF-16 code
      units, as `minLength` counts them. */
  function PasswordError(s: string): (r: Option<string>)
    ensures r.None? <==> Utf16Length(s) >= 6
    ensures s == "" ==> r == Some(PasswordRequired)
    ensures 0 < Utf16Length(s) < 6 ==> r == Some(PasswordAtLeastSix)
  {
    if s == "" then Some(PasswordRequired)
    else if Utf16Length(s) < 6 then Some(PasswordAtLeastSix)
    else None
  }

  /** Three astral characters are six code units: enough for the sign-in
      password, though only three characters. */
  lemma AstralCharactersCountTwice()
    ensures |"\U{1F600}\U{1F600}\U{1F600}"| == 3
    ensures PasswordError("\U{1F600}\U{1F600}\U{1F600}").None?
  {
    var s := "\U{1F600}\U{1F600}\U{1F600}";
    assert IsAstral(s[0]) && IsAstral(s[1]) && IsAstral(s[2]);
    assert s[1..][1..][1..] == [];
  }

  /** `handleSubmit` calls the handler only when both fields pass. */
  function Submittable(email: string, password: string): (r: bool)
    ensures r <==> MatchesEmailPattern(email) && Utf16Length(password) >= 6
  {
    EmailError(email).None? && PasswordError(password).None?
  }

  /** The role-based page after a successful sign-in. */
  function Destination(s: Session): (path: string)
    ensures path == "/admin/dashboard" <==> s.role == Some("admin")
    ensures path == "/admin/dashboard" || path == "/user/dashboard"
  {
    if s.role == Some("admin") then "/admin/dashboard" else "/user/dashboard"
  }

  const LoginFallback := "Login failed. Please try again."

  /** A resolved login navigates; a thrown one stays on the page and shows
      the error's message, or the fallback when the message is empty. */
  function AfterLogin(r: Result<Session, string>): (o: FormOutcome)
    ensures o.Navigate? <==> r.Ok?
    ensures r.Ok? ==> o.path == Destination(r.value)
    ensures r.Err? ==> o.ShowError? && o.message != ""
    ensures r.Err? && r.error != "" ==> o.message == r.error
    ensures r.Err? && r.error == "" ==> o.message == LoginFallback
  {
    match r
    case Ok(s) => Navigate(Destination(s))
    case Err(m) => ShowError(ErrorText(m, LoginFallback))
  }

  /** The destination renders for the session that was just signed in, so
      the route table does not send the user anywhere else. */
  lemma DestinationRenders(s: Session)
    ensures Resolve(Destination(s), Some(s)) == Render
  {
    if s.role == Some("admin") {
      assert Resolve("/admin/dashboard", Some(s)) == Guard(Some(s), true);
    } else {
      assert Resolve("/user/dashboard", Some(s)) == Guard(Some(s));
    }
  }

  /** Each login failure is shown with the message it was thrown with. */
  lemma FailureShowsReason(e: LoginError)
    ensures AfterLogin(Err(ErrorMessage(e))) == ShowError(ErrorMessage(e))
  {
  }

  /** A submission: nothing happens unless both fields pass; otherwise the
      authentication context signs in and the page navigates or shows why
      it did not. */
  method Submit(auth: AuthProvider, email: string, password: string, now: string)
    returns (o: Option<FormOutcome>)
    requires auth.Valid()
    modifies auth
    ensures auth.Valid()
    ensures !Submittable(email, password) ==> o.None? && unchanged(auth)
    ensures Submittable(email, password) ==> o.Some?
    ensures o.Some? && o.value.Navigate? <==>
      Submittable(email, password) && Authenticate(old(auth.users), email, password).Ok?
    ensures Submittable(email, password) && Authenticate(old(auth.users), email, password).Ok? ==>
      var signedIn := old(auth.users)[Authenticate(old(auth.users), email, password).value].(lastLogin := Some(now));
      && auth.users == ReplaceByEmail(old(auth.users), signedIn)
      && auth.user == Some(SessionOf(signedIn))
      && o == Some(Navigate(Destination(SessionOf(signedIn))))
    ensures o.Some? && o.value.ShowError? ==>
      && Authenticate(old(auth.users), email, password).Err?
      && o.value.message == ErrorMessage(Authenticate(old(auth.users), email, password).error)
      && auth.user == old(auth.user) && auth.users == old(auth.users)
  {
    if !Submittable(email, password) {
      return None;
    }
    var r := auth.Login(email, password, now);
    match r
    case Ok(s) =>
      o := Some(AfterLogin(Ok(s)));
    case Err(e) =>
      o := Some(AfterLogin(Err(ErrorMessage(e))));
  }
}

/** The registration form: four field rules and the request it sends. */
module RegisterForm {
  import opened Common
  import opened Validation

  datatype Fields = Fields(
    username: string,
    email: string,
    password: string,
    confirmPassword: string,
    adminCode: string)

  /** `[a-zA-Z0-9_]` */
  predicate IsUsernameChar(c: char) {
    IsAsciiLetter(c) || IsDigit(c) || c == '_'
  }

  const UsernameRequired := "Username is required"
  const UsernameTooShort := "Username must be at least 3 characters"
  const UsernameBadChars := "Username can only contain letters, numbers and underscores"

  /** The username rule: required, then 3 UTF-16 code units, then only
      letters, digits and underscores (which are one code unit each). */
  function UsernameError(s: string): (r: Option<string>)
    ensures r.None? <==> |s| >= 3 && All(s, IsUsernameChar)
    ensures s == "" ==> r == Some(UsernameRequired)
    ensures 0 < Utf16Length(s) < 3 ==> r == Some(UsernameTooShort)
    ensures Utf16Length(s) >= 3 && !All(s, IsUsernameChar) ==> r == Some(UsernameBadChars)
  {
    if s == "" then Some(UsernameRequired)
    else if Utf16Length(s) < 3 then Some(UsernameTooShort)
    else if !All(s, IsUsernameChar) then Some(UsernameBadChars)
    else None
  }

  /** The form submits exactly when every rule passes; the admin code has
      no rule. */
  function Submittable(f: Fields): (r: bool)
    ensures r <==>
      && |f.username| >= 3 && All(f.username, IsUsernameChar)
      && MatchesEmailPattern(f.email)
      && StrongPassword(f.password)
      && f.confirmPassword != "" && f.confirmPassword == f.password
  {
    && UsernameError(f.username).None?
    && EmailError(f.email).None?
    && NewPasswordError(f.password).None?
    && ConfirmError(f.confirmPassword, f.password).None?
  }

  /** The JSON body of the registration request. */
  datatype Body = Body(username: string, password: string, name: string, role: string)

  /** The server's `username` is the entered email, its `name` the entered
      username, and every account registers with role "USER". */
  function RequestBody(f: Fields): (b: Body)
    ensures b.username == f.email && b.name == f.username
    ensures b.password == f.password && b.role == "USER"
  {
    Body(f.email, f.password, f.username, "USER")
  }

  /** Neither the admin code nor the confirmation reaches the server. */
  lemma BodyIgnoresAdminCode(f: Fields, code: string, confirm: string)
    ensures RequestBody(f.(adminCode := code, confirmPassword := confirm)) == RequestBody(f)
  {
  }

  /** A body that is sent carries a well-formed email and a strong password. */
  lemma SentBodyIsWellFormed(f: Fields)
    requires Submittable(f)
    ensures MatchesEmailPattern(RequestBody(f).username)
    ensures StrongPassword(RequestBody(f).password)
    ensures |RequestBody(f).name| >= 3 && RequestBody(f).role == "USER"
  {
  }

  /** How the request settles: the fetch resolves with any HTTP status, or
      throws. */
  datatype FetchResult = Resolved(status: int) | Rejected(message: string)

  const RegisterFallback := "Registration failed. Please try again."

  /** Any resolved fetch navigates to the sign-in page, whatever its status;
      only a thrown fetch shows an error. */
  function AfterRegister(r: FetchResult): (o: FormOutcome)
    ensures r.Resolved? <==> o == Navigate("/login")
    ensures r.Rejected? ==> o.ShowError? && o.message != ""
    ensures r.Rejected? && r.message != "" ==> o.message == r.message
    ensures r.Rejected? && r.message == "" ==> o.message == RegisterFallback
  {
    match r
    case Resolved(_) => Navigate("/login")
    case Rejected(m) => ShowError(ErrorText(m, RegisterFallback))
  }
}

/** The reset-password form: the token from the link, two field rules and
    the request. */
module ResetPasswordForm {
  import opened Common
  import opened Validation
  import opened AppRoutes

  datatype Fields = Fields(password: string, confirmPassword: string)

  function Submittable(f: Fields): (r: bool)
    ensures r <==> StrongPassword(f.password) && f.confirmPassword != "" && f.confirmPassword == f.password
  {
    NewPasswordError(f.password).None? && ConfirmError(f.confirmPassword, f.password).None?
  }

  datatype Request = Request(token: string, password: string)

  /** The reset request: the token of the route and the new password. */
  function ResetRequest(token: string, f: Fields): (r: Request)
    ensures r.token == token && r.password == f.password
  {
    Request(token, f.password)
  }

  /** The confirmation is not sent. */
  lemma RequestIgnoresConfirm(token: string, f: Fields, confirm: string)
    ensures ResetRequest(token, f.(confirmPassword := confirm)) == ResetRequest(token, f)
  {
  }

  /** The token sent is the last segment of the reset link that opened the
      page, and the password sent satisfies the strength rule. */
  lemma RequestCarriesLinkToken(token: string, f: Fields)
    requires token != "" && '/' !in token
    requires Submittable(f)
    ensures Match(ResetPrefix + token).Some?
    ensures Match(ResetPrefix + token).value.ResetPasswordPage?
    ensures ResetRequest(Match(ResetPrefix + token).value.token, f) == Request(token, f.password)
    ensures StrongPassword(ResetRequest(token, f).password)
  {
    ResetLinkCarriesToken(token);
  }

  const ResetSucceeded := "Password successfully reset! Redirecting to login..."
  const ResetFailed := "Failed to reset password. Please try again."

  /** The alert after the request settles and whether the page then goes
      to the sign-in page: only a successful request navigates. */
  datatype Status = Status(kind: string, message: string)

  function AfterReset(ok: bool): (r: (Status, Option<string>))
    ensures ok <==> r.1 == Some("/login")
    ensures !ok ==> r.1.None?
    ensures r.0.kind == (if ok then "success" else "danger")
    ensures r.0.message == (if ok then ResetSucceeded else ResetFailed)
  {
    if ok then (Status("success", ResetSucceeded), Some("/login"))
    else (Status("danger", ResetFailed), None)
  }
}

/** The profile form: the rules of its editable fields and which fields
    can be edited. */
module UserProfileForm {
  import opened Common
  import opened Validation

  datatype Profile = Profile(
    firstName: string,
    lastName: string,
    email: string,
    phone: string,
    address: string,
    city: string,
    state: string,
    department: string)

  /** A rule with `required` and an optional `minLength`, counted in UTF-16
      code units. */
  function LengthRule(s: string, required: string, minLength: nat, tooShort: string): (r: Option<string>)
    ensures r.None? <==> s != "" && Utf16Length(s) >= minLength
    ensures s == "" ==> r == Some(required)
    ensures s != "" && Utf16Length(s) < minLength ==> r == Some(tooShort)
  {
    if s == "" then Some(required)
    else if Utf16Length(s) < minLength then Some(tooShort)
    else None
  }

  const PhoneRequired := "Phone number is required"
  const PhoneInvalid := "Please enter a valid 10-digit phone number"

  /** `/^\d{10}$/`: exactly ten decimal digits. */
  function PhoneError(s: string): (r: Option<string>)
    ensures r.None? <==> |s| == 10 && All(s, IsDigit)
    ensures s == "" ==> r == Some(PhoneRequired)
    ensures s != "" && r.Some? ==> r == Some(PhoneInvalid)
  {
    if s == "" then Some(PhoneRequired)
    else if !(|s| == 10 && All(s, IsDigit)) then Some(PhoneInvalid)
    else None
  }

  datatype Errors = Errors(
    firstName: Option<string>,
    lastName: Option<string>,
    phone: Option<string>,
    address: Option<string>,
    city: Option<string>,
    state: Option<string>)

  /** The message of each validated field; the email and the department
      carry no rule. */
  function Check(p: Profile): (e: Errors)
    ensures e.firstName.None? <==> p.firstName != ""
    ensures e.lastName.None? <==> p.lastName != ""
    ensures e.phone.None? <==> |p.phone| == 10 && All(p.phone, IsDigit)
    ensures e.address.None? <==> Utf16Length(p.address) >= 10
    ensures e.city.None? <==> Utf16Length(p.city) >= 2
    ensures e.state.None? <==> Utf16Length(p.state) >= 2
  {
    Errors(
      LengthRule(p.firstName, "First name is required", 0, ""),
      LengthRule(p.lastName, "Last name is required", 0, ""),
      PhoneError(p.phone),
      LengthRule(p.address, "Address is required", 10, "Please enter a complete address"),
      LengthRule(p.city, "City is required", 2, "City name must be at least 2 characters"),
      LengthRule(p.state, "State is required", 2, "State name must be at least 2 characters"))
  }

  const NoErrors := Errors(None, None, None, None, None, None)

  /** The form submits exactly when every validated field passes. */
  predicate Submittable(p: Profile) {
    Check(p) == NoErrors
  }

  /** Neither the email nor the department affects whether the form submits. */
  lemma EmailAndDepartmentUnchecked(p: Profile, email: string, department: string)
    ensures Check(p.(email := email, department := department)) == Check(p)
    ensures Submittable(p.(email := email, department := department)) <==> Submittable(p)
  {
  }

  /** The values the department select offers; the empty one means none
      was selected. */
  const Departments := ["", "CS", "IT", "EE", "EX", "CIVIL", "MECHANICAL", "CDS", "ARENA", "OTHER"]

  datatype Field = FirstName | LastName | Email | Phone | Address | City | State | Department

  /** The email input is disabled in every mode; every other input is
      disabled exactly while the form is not being edited. */
  function Disabled(field: Field, isEditing: bool): (r: bool)
    ensures field == Email ==> r
    ensures field != Email ==> (r <==> !isEditing)
  {
    field == Email || !isEditing
  }

  /** Editing enables every field except the email. */
  lemma EditingEnablesAllButEmail(field: Field)
    ensures !Disabled(field, true) <==> field != Email
    ensures Disabled(field, false)
  {
  }
}
