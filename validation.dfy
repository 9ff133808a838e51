/** The field rules the authentication forms share. Each form registers its
    fields with react-hook-form, which checks a field's rules in the order
    required, minLength, pattern, validate and reports the first that fails;
    a `...Error` function here returns that message, or None when the field
    is accepted. The regular expressions are stated over ASCII character
    classes. */
module Validation {
  import opened Common

  predicate IsLowerAscii(c: char) { 'a' <= c <= 'z' }
  predicate IsAsciiLetter(c: char) { IsLowerAscii(c) || IsUpperAscii(c) }
  predicate IsDigit(c: char) { '0' <= c <= '9' }

  /** `[A-Z0-9._%+-]` under the `i` flag */
  predicate IsLocalChar(c: char) {
    IsAsciiLetter(c) || IsDigit(c) || c == '.' || c == '_' || c == '%' || c == '+' || c == '-'
  }

  /** `[A-Z0-9.-]` under the `i` flag */
  predicate IsDomainChar(c: char) {
    IsAsciiLetter(c) || IsDigit(c) || c == '.' || c == '-'
  }

  /** `[@$!%*?&]` */
  predicate IsSpecial(c: char) {
    c == '@' || c == '$' || c == '!' || c == '%' || c == '*' || c == '?' || c == '&'
  }

  /** `[A-Za-z\d@$!%*?&]` */
  predicate IsPasswordChar(c: char) {
    IsAsciiLetter(c) || IsDigit(c) || IsSpecial(c)
  }

  predicate All(s: string, p: char -> bool) {
    forall i :: 0 <= i < |s| ==> p(s[i])
  }

  // ---------------------------------------------------------------------
  // /^[A-Z0-9._%+-]+@[A-Z0-9.-]+\.[A-Z]{2,}$/i

  /** The pattern matches with the `@` at `at` and the dot before the
      top-level domain at `dot`. */
  ghost predicate EmailSplitAt(s: string, at: int, dot: int) {
    && 0 < at && at + 1 < dot && dot + 2 < |s|
    && s[at] == '@' && s[dot] == '.'
    && All(s[..at], IsLocalChar)
    && All(s[at + 1..dot], IsDomainChar)
    && All(s[dot + 1..], IsAsciiLetter)
  }

  /** The regular expression matches `s`: some split local@domain.tld. */
  ghost predicate MatchesEmailPattern(s: string) {
    exists at, dot :: EmailSplitAt(s, at, dot)
  }

  function FirstIndexOf(s: string, c: char): (r: Option<nat>)
    ensures r.Some? ==> r.value < |s| && s[r.value] == c
    ensures r.Some? ==> forall j :: 0 <= j < r.value ==> s[j] != c
    ensures r.None? ==> forall j :: 0 <= j < |s| ==> s[j] != c
  {
    if s == [] then None
    else if s[0] == c then Some(0)
    else
      match FirstIndexOf(s[1..], c)
      case None => None
      case Some(k) => Some(k + 1)
  }

  function LastIndexOf(s: string, c: char): (r: Option<nat>)
    ensures r.Some? ==> r.value < |s| && s[r.value] == c
    ensures r.Some? ==> forall j :: r.value < j < |s| ==> s[j] != c
    ensures r.None? ==> forall j :: 0 <= j < |s| ==> s[j] != c
  {
    if s == [] then None
    else if s[|s| - 1] == c then Some(|s| - 1)
    else LastIndexOf(s[..|s| - 1], c)
  }

  /** The matcher without backtracking: the local part ends at the only
      `@`, and the top-level domain starts after the last dot. */
  predicate IsEmail(s: string) {
    match FirstIndexOf(s, '@')
    case None => false
    case Some(at) =>
      var rest := s[at + 1..];
      match LastIndexOf(rest, '.')
      case None => false
      case Some(d) =>
        && 0 < at && All(s[..at], IsLocalChar)
        && 0 < d && All(rest[..d], IsDomainChar)
        && d + 2 < |rest| && All(rest[d + 1..], IsAsciiLetter)
  }

  /** Whatever the matcher accepts, the regular expression matches. */
  lemma EmailCheckSound(s: string)
    requires IsEmail(s)
    ensures MatchesEmailPattern(s)
  {
    var at := FirstIndexOf(s, '@').value;
    var rest := s[at + 1..];
    var d := LastIndexOf(rest, '.').value;
    assert rest[..d] == s[at + 1..at + 1 + d];
    assert rest[d + 1..] == s[at + 1 + d + 1..];
    assert EmailSplitAt(s, at, at + 1 + d);
  }

  /** The local part holds no `@`, so the first `@` is the one of the split. */
  lemma FirstAtIsSplit(s: string, at: int, dot: int)
    requires EmailSplitAt(s, at, dot)
    ensures FirstIndexOf(s, '@') == Some(at)
  {
    forall j | 0 <= j < at ensures s[j] != '@' {
      assert s[..at][j] == s[j];
    }
  }

  /** The top-level domain holds no dot, so the last dot is the one of the split. */
  lemma LastDotIsSplit(s: string, at: int, dot: int)
    requires EmailSplitAt(s, at, dot)
    ensures LastIndexOf(s[at + 1..], '.') == Some(dot - at - 1)
  {
    var rest := s[at + 1..];
    forall j | dot - at - 1 < j < |rest| ensures rest[j] != '.' {
      assert rest[j] == s[dot + 1..][j - (dot - at)];
    }
  }

  /** Whatever the regular expression matches, the matcher accepts. */
  lemma EmailCheckComplete(s: string, at: int, dot: int)
    requires EmailSplitAt(s, at, dot)
    ensures IsEmail(s)
  {
    FirstAtIsSplit(s, at, dot);
    LastDotIsSplit(s, at, dot);
    var rest := s[at + 1..];
    var d := dot - at - 1;
    assert rest[..d] == s[at + 1..dot];
    assert rest[d + 1..] == s[dot + 1..];
  }

  /** The backtracking-free matcher accepts exactly the strings the
      regular expression matches. */
  lemma EmailCheckCorrect(s: string)
    ensures IsEmail(s) <==> MatchesEmailPattern(s)
  {
    if IsEmail(s) {
      EmailCheckSound(s);
    }
    if MatchesEmailPattern(s) {
      var at, dot :| EmailSplitAt(s, at, dot);
      EmailCheckComplete(s, at, dot);
    }
  }

  // ---------------------------------------------------------------------
  // /^(?=.*[a-z])(?=.*[A-Z])(?=.*\d)(?=.*[@$!%*?&])[A-Za-z\d@$!%*?&]{8,}$/

  /** At least eight characters, all from the allowed set, including a
      lower-case letter, an upper-case letter, a digit and a special. */
  predicate StrongPassword(s: string) {
    && |s| >= 8
    && All(s, IsPasswordChar)
    && (exists i :: 0 <= i < |s| && IsLowerAscii(s[i]))
    && (exists i :: 0 <= i < |s| && IsUpperAscii(s[i]))
    && (exists i :: 0 <= i < |s| && IsDigit(s[i]))
    && (exists i :: 0 <= i < |s| && IsSpecial(s[i]))
  }

  // ---------------------------------------------------------------------
  // Field rules

  const EmailRequired := "Email is required"
  const EmailInvalid := "Invalid email address"

  /** The email rule of the login and registration forms. */
  function EmailError(s: string): (r: Option<string>)
    ensures r.None? <==> MatchesEmailPattern(s)
    ensures s == "" ==> r == Some(EmailRequired)
    ensures s != "" && r.Some? ==> r == Some(EmailInvalid)
  {
    EmailCheckCorrect(s);
    if s == "" then Some(EmailRequired)
    else if !IsEmail(s) then Some(EmailInvalid)
    else None
  }

  const PasswordRequired := "Password is required"
  const PasswordTooShort := "Password must be at least 8 characters"
  const PasswordTooWeak := "Password must contain at least one uppercase letter, one lowercase letter, one number and one special character"

  /** The new-password rule of the registration and reset forms: required,
      then at least 8 UTF-16 code units, then the strength pattern (whose
      characters are one code unit each). */
  function NewPasswordError(s: string): (r: Option<string>)
    ensures r.None? <==> StrongPassword(s)
    ensures s == "" ==> r == Some(PasswordRequired)
    ensures 0 < Utf16Length(s) < 8 ==> r == Some(PasswordTooShort)
    ensures Utf16Length(s) >= 8 && !StrongPassword(s) ==> r == Some(PasswordTooWeak)
  {
    if s == "" then Some(PasswordRequired)
    else if Utf16Length(s) < 8 then Some(PasswordTooShort)
    else if !StrongPassword(s) then Some(PasswordTooWeak)
    else None
  }

  const ConfirmRequired := "Please confirm your password"
  const ConfirmMismatch := "Passwords do not match"

  /** The confirmation rule: required, then equal to the password field. */
  function ConfirmError(confirm: string, password: string): (r: Option<string>)
    ensures r.None? <==> confirm != "" && confirm == password
    ensures confirm != "" && confirm != password ==> r == Some(ConfirmMismatch)
  {
    if confirm == "" then Some(ConfirmRequired)
    else if confirm != password then Some(ConfirmMismatch)
    else None
  }

  /** What a submit handler does once the request settled. */
  datatype FormOutcome = Navigate(path: string) | ShowError(message: string)

  /** `error.message || fallback` */
  function ErrorText(message: string, fallback: string): (r: string)
    ensures message != "" ==> r == message
    ensures message == "" ==> r == fallback
  {
    if message != "" then message else fallback
  }
}
