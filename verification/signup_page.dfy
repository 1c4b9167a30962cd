/** The sign-up page: the three checks in their order (all fields filled,
    passwords equal, password long enough) and the outcome of the sign-up
    call, whose result is an input. */
module SignupPage {
  import opened Common
  import opened LoginPage

  const Mismatch := "Passwords do not match."
  const TooShort := "Password must be at least 6 characters."
  const SignupFailed := "Sign up failed."
  const MinPasswordLength := 6

  /** The first failing check, or the credentials handed to `signup` as
      typed (untrimmed). */
  datatype Check = Rejected(message: string) | Submit(name: string, email: string, password: string)

  function CheckSignup(name: string, email: string, password: string, confirm: string): Check {
    if Trim(name) == "" || Trim(email) == "" || Trim(password) == "" || Trim(confirm) == "" then Rejected(FillInAll)
    else if password != confirm then Rejected(Mismatch)
    else if Utf16Length(password) < MinPasswordLength then Rejected(TooShort)
    else Submit(name, email, password)
  }

  /** The page after a submit: the error shown, and whether the spinner keeps
      running (it does after a successful call, until the profile loads). */
  datatype SignupView = SignupView(error: string, loading: bool, called: Option<Check>)

  function HandleSignup(name: string, email: string, password: string, confirm: string, res: AuthResult): SignupView {
    var c := CheckSignup(name, email, password, confirm);
    if c.Rejected? then SignupView(c.message, false, None)
    else if !res.ok then SignupView(Coalesce(res.error, SignupFailed), false, Some(c))
    else SignupView("", true, Some(c))
  }

  /** The call is made exactly when every field has a non-blank value, the
      two passwords are equal and at least six UTF-16 code units long
      (counting white space); blank fields are reported before a mismatch, and a
      mismatch before a short password. */
  lemma CheckSignupSpec(name: string, email: string, password: string, confirm: string)
    ensures var c := CheckSignup(name, email, password, confirm);
            && (c.Submit? <==> !AllSpace(name) && !AllSpace(email) && !AllSpace(password) && !AllSpace(confirm)
                                && password == confirm && Utf16Length(password) >= 6)
            && (c.Submit? ==> c == Submit(name, email, password))
            && (AllSpace(name) || AllSpace(email) || AllSpace(password) || AllSpace(confirm) ==> c == Rejected(FillInAll))
            && (c == Rejected(TooShort) ==> password == confirm)
  {
    TrimEmptyIffAllSpace(name);
    TrimEmptyIffAllSpace(email);
    TrimEmptyIffAllSpace(password);
    TrimEmptyIffAllSpace(confirm);
  }

  /** The length rule counts the untrimmed password: two letters padded with
      spaces pass it. */
  lemma PaddedPasswordPasses()
    ensures CheckSignup("A", "a@b", "  ab  ", "  ab  ") == Submit("A", "a@b", "  ab  ")
  {
    var name, email, pw := "A", "a@b", "  ab  ";
    assert !IsSpace(name[0]) && !IsSpace(email[0]) && !IsSpace(pw[2]);
    Utf16LengthBmp(pw);
    CheckSignupSpec(name, email, pw, pw);
  }

  /** The length rule counts UTF-16 code units: three emoji, each outside the
      Basic Multilingual Plane, make a password of length six. */
  lemma AstralPasswordPasses()
    ensures CheckSignup("A", "a@b", "\U{1F600}\U{1F600}\U{1F600}", "\U{1F600}\U{1F600}\U{1F600}")
            == Submit("A", "a@b", "\U{1F600}\U{1F600}\U{1F600}")
  {
    var name, email, pw := "A", "a@b", "\U{1F600}\U{1F600}\U{1F600}";
    assert !IsSpace(name[0]) && !IsSpace(email[0]) && !IsSpace(pw[0]);
    assert Utf16Length(pw[2..]) == 2 && Utf16Length(pw[1..]) == 4;
    CheckSignupSpec(name, email, pw, pw);
  }

  /** A failed call shows the store's error or the default one and stops the
      spinner; a successful one shows no error and keeps it running. */
  lemma HandleSignupSpec(name: string, email: string, password: string, confirm: string, res: AuthResult)
    ensures var v := HandleSignup(name, email, password, confirm, res);
            && (v.called.Some? <==> CheckSignup(name, email, password, confirm).Submit?)
            && (v.loading <==> v.called.Some? && res.ok)
            && (v.called.Some? && !res.ok ==> v.error == (if res.error.Some? then res.error.value else SignupFailed))
            && (v.loading ==> v.error == "")
            && (!v.called.Some? ==> v.error != "")
  {
  }
}
