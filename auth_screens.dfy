/**
 * The form checks of the mobile app's authentication screens. Each handler is a chain of
 * early returns: the first failing check shows its alert and nothing else happens; when
 * every check passes the screen starts its request. The register, login and forgot-password
 * screens each define the same e-mail check, `EmailFormat.IsValidEmail`.
 */
module RegisterScreen {
  import opened JsText
  import opened EmailFormat

  /** The alerts of `handleRegister`, in the order their checks run. */
  datatype Alert =
    | FillAll            // "Vui lòng nhập đầy đủ thông tin!"
    | InvalidEmail       // "Email không hợp lệ!"
    | PasswordTooShort   // "Mật khẩu phải có ít nhất 6 ký tự!"
    | PasswordMismatch   // "Mật khẩu xác nhận không khớp!"

  /** An alert, or the request started (`isLoading` set). */
  datatype Outcome = Alerted(alert: Alert) | Submitted

  const MinPasswordLength: nat := 6

  /** Some character of `s` is not white space. */
  predicate HasNonSpace(s: string) {
    exists k :: 0 <= k < |s| && !IsSpace(s[k])
  }

  lemma {:induction false} NotBlankIff(s: string)
    ensures !IsBlank(s) <==> HasNonSpace(s)
  {
    BlankIffAllSpace(s);
  }

  /** `handleRegister`: every field blank after `trim`, then the e-mail as typed (not
      trimmed), then the password's `length` in UTF-16 units, then the confirmation. */
  function HandleRegister(name: string, email: string, password: string, confirm: string): (r: Outcome)
  {
    if IsBlank(name) || IsBlank(email) || IsBlank(password) || IsBlank(confirm) then Alerted(FillAll)
    else if !IsValidEmail(email) then Alerted(InvalidEmail)
    else if Utf16Length(password) < MinPasswordLength then Alerted(PasswordTooShort)
    else if password != confirm then Alerted(PasswordMismatch)
    else Submitted
  }

  /** The request starts exactly when the name has a visible character, the e-mail has the
      pattern's shape, the password is at least 6 units long with a visible character, and
      the confirmation repeats it. */
  lemma {:induction false} SubmittedIff(name: string, email: string, password: string, confirm: string)
    ensures HandleRegister(name, email, password, confirm) == Submitted <==>
      HasNonSpace(name) && EmailShape(email) && HasNonSpace(password) &&
      Utf16Length(password) >= MinPasswordLength && password == confirm
  {
    NotBlankIff(name);
    NotBlankIff(email);
    NotBlankIff(password);
    NotBlankIff(confirm);
    EmailShapeIff(email);
    if EmailShape(email) {
      assert !IsSpace(email[0]);
    }
  }

  /** The e-mail is checked as typed: with a leading space it passes the blank check and
      then fails the format check. */
  lemma {:induction false} LeadingSpaceEmail(name: string, email: string, password: string, confirm: string)
    requires HasNonSpace(name) && HasNonSpace(password) && HasNonSpace(confirm)
    requires |email| > 1 && IsSpace(email[0]) && !IsSpace(email[1])
    ensures HandleRegister(name, email, password, confirm) == Alerted(InvalidEmail)
  {
    NotBlankIff(name);
    NotBlankIff(email);
    NotBlankIff(password);
    NotBlankIff(confirm);
    LeadingSpaceRejected(email);
  }

  /** Length is counted in UTF-16 units: three emoji make a six-unit password. */
  lemma {:induction false} EmojiPasswordLength()
    ensures Utf16Length("\U{1F600}\U{1F600}\U{1F600}") == MinPasswordLength
  {
    var s := "\U{1F600}\U{1F600}\U{1F600}";
    assert s[..2] == "\U{1F600}\U{1F600}";
    assert s[..2][..1] == "\U{1F600}";
  }
}

module LoginScreen {
  import opened JsText
  import opened EmailFormat
  import RegisterScreen

  datatype Alert =
    | FillAll            // "Vui lòng nhập đầy đủ thông tin!"
    | InvalidEmail       // "Email không hợp lệ!"

  /** An alert, or a login whose navigation stack is reset to `stack`. */
  datatype Outcome = Alerted(alert: Alert) | LoggedIn(stack: seq<string>)

  /** `handleLogin`: both fields blank after `trim`, then the e-mail format. The request is
      a stand-in that always succeeds and resets navigation to `Home`. */
  function HandleLogin(email: string, password: string): (r: Outcome)
  {
    if IsBlank(email) || IsBlank(password) then Alerted(FillAll)
    else if !IsValidEmail(email) then Alerted(InvalidEmail)
    else LoggedIn(["Home"])
  }

  /** Any password with a visible character is accepted: there is no length rule. */
  lemma {:induction false} LoggedInIff(email: string, password: string)
    ensures HandleLogin(email, password).LoggedIn? <==> EmailShape(email) && RegisterScreen.HasNonSpace(password)
    ensures HandleLogin(email, password).LoggedIn? ==> HandleLogin(email, password).stack == ["Home"]
  {
    RegisterScreen.NotBlankIff(email);
    RegisterScreen.NotBlankIff(password);
    EmailShapeIff(email);
    if EmailShape(email) {
      assert !IsSpace(email[0]);
    }
  }

  /** Whatever the register screen submits, the login screen accepts. */
  lemma {:induction false} RegisteredCredentialsAccepted(name: string, email: string, password: string, confirm: string)
    requires RegisterScreen.HandleRegister(name, email, password, confirm) == RegisterScreen.Submitted
    ensures HandleLogin(email, password) == LoggedIn(["Home"])
  {
  }

  /** A one-character password passes the login checks but not the registration ones. */
  lemma {:induction false} ShortPasswordOnlyAtLogin(email: string)
    requires IsValidEmail(email)
    ensures HandleLogin(email, "x") == LoggedIn(["Home"])
    ensures RegisterScreen.HandleRegister("An", email, "x", "x") == RegisterScreen.Alerted(RegisterScreen.PasswordTooShort)
  {
    ShortPasswordLogsIn(email);
    ShortPasswordRefused(email);
  }

  lemma {:induction false} ShortPasswordLogsIn(email: string)
    requires IsValidEmail(email)
    ensures HandleLogin(email, "x") == LoggedIn(["Home"])
  {
    LoggedInIff(email, "x");
    EmailShapeIff(email);
    assert !IsSpace(email[0]);
    RegisterScreen.NotBlankIff(email);
    RegisterScreen.NotBlankIff("x");
    AlnumIsNotSpace("x"[0]);
  }

  lemma {:induction false} ShortPasswordRefused(email: string)
    requires IsValidEmail(email)
    ensures RegisterScreen.HandleRegister("An", email, "x", "x") == RegisterScreen.Alerted(RegisterScreen.PasswordTooShort)
  {
    EmailShapeIff(email);
    assert !IsSpace(email[0]);
    RegisterScreen.NotBlankIff(email);
    RegisterScreen.NotBlankIff("x");
    RegisterScreen.NotBlankIff("An");
    AlnumIsNotSpace("An"[0]);
    AlnumIsNotSpace("x"[0]);
    assert !IsBlank("An") && !IsBlank(email) && !IsBlank("x");
    assert "x"[..0] == [];
    assert Utf16Length("x") == 1;
  }
}

module ForgotPasswordScreen {
  import opened JsText
  import opened EmailFormat
  import RegisterScreen

  datatype Alert =
    | EnterEmail         // "Vui lòng nhập email!"
    | InvalidEmail       // "Email không hợp lệ!"

  /** An alert, or the reset link requested (and, on OK, back to `Login`). */
  datatype Outcome = Alerted(alert: Alert) | LinkRequested

  /** `handleForgotPassword`: a blank e-mail, then the e-mail format. */
  function HandleForgotPassword(email: string): (r: Outcome)
  {
    if IsBlank(email) then Alerted(EnterEmail)
    else if !IsValidEmail(email) then Alerted(InvalidEmail)
    else LinkRequested
  }

  /** The link is requested exactly for an e-mail of the pattern's shape; a blank one gets
      the blank alert, never the format one. */
  lemma {:induction false} LinkRequestedIff(email: string)
    ensures HandleForgotPassword(email) == LinkRequested <==> EmailShape(email)
    ensures !RegisterScreen.HasNonSpace(email) ==> HandleForgotPassword(email) == Alerted(EnterEmail)
  {
    RegisterScreen.NotBlankIff(email);
    EmailShapeIff(email);
    if EmailShape(email) {
      assert !IsSpace(email[0]);
    }
  }
}

module ResetPasswordScreen {
  datatype Alert =
    | FillAll            // "Vui lòng nhập đầy đủ thông tin"
    | Mismatch           // "Mật khẩu không trùng khớp"

  /** An alert, or the call `resetPassword(email, newPassword)`. */
  datatype Outcome = Alerted(alert: Alert) | ResetRequested(email: string, newPassword: string)

  /** `handleReset`: an empty field (not trimmed), then a mismatch. */
  function HandleReset(email: string, newPassword: string, confirm: string): (r: Outcome)
  {
    if newPassword == "" || confirm == "" then Alerted(FillAll)
    else if newPassword != confirm then Alerted(Mismatch)
    else ResetRequested(email, newPassword)
  }

  /** The service is called with the route's e-mail and the new password exactly when the
      password is non-empty and confirmed; white space alone is accepted and there is no
      minimum length. */
  lemma {:induction false} ResetRequestedIff(email: string, newPassword: string, confirm: string)
    ensures HandleReset(email, newPassword, confirm).ResetRequested? <==> newPassword != "" && newPassword == confirm
    ensures HandleReset(email, newPassword, confirm).ResetRequested? ==>
      HandleReset(email, newPassword, confirm) == ResetRequested(email, newPassword)
    ensures newPassword == "" ==> HandleReset(email, newPassword, confirm) == Alerted(FillAll)
  {
  }

  lemma {:induction false} WhitespacePasswordAccepted(email: string)
    ensures HandleReset(email, " ", " ") == ResetRequested(email, " ")
    ensures HandleReset(email, "a", "a") == ResetRequested(email, "a")
  {
  }
}
