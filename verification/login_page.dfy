/** The sign-in page: the empty-field check, the outcome of the login call,
    and the redirect of a signed-in user. The login call itself is an input:
    its result is given. */
module LoginPage {
  import opened Common

  const FillInAll := "Please fill in all fields."
  const LoginFailed := "Login failed."
  const Dashboard := "/dashboard"

  /** What the store's `login` / `signup` resolve to. */
  datatype AuthResult = AuthResult(ok: bool, error: Option<string>)

  /** The page after a submit: the error shown, whether the login call was
      made, and where the page navigates. */
  datatype LoginView = LoginView(error: string, called: bool, navigate: Option<string>)

  /** `handleLogin`: an empty email or password (untrimmed) stops with the
      fill-in message; otherwise the call is made, a failure shows its error
      or the default one, and a success goes to the dashboard. */
  function HandleLogin(email: string, password: string, res: AuthResult): LoginView {
    if email == "" || password == "" then LoginView(FillInAll, false, None)
    else if !res.ok then LoginView(Coalesce(res.error, LoginFailed), true, None)
    else LoginView("", true, Some(Dashboard))
  }

  /** The call is made exactly when both fields are non-empty (white space
      counts as filled); the page navigates exactly on a successful call,
      and then shows no error; a failure shows a non-empty message when the
      store gives none. */
  lemma HandleLoginSpec(email: string, password: string, res: AuthResult)
    ensures var v := HandleLogin(email, password, res);
            && (v.called <==> email != "" && password != "")
            && (v.navigate.Some? <==> v.called && res.ok)
            && (v.navigate.Some? ==> v.navigate == Some(Dashboard) && v.error == "")
            && (v.called && !res.ok ==> v.error == (if res.error.Some? then res.error.value else LoginFailed))
            && (!v.called ==> v.error == FillInAll)
    ensures HandleLogin(" ", " ", res).called
  {
  }

  /** The redirect of the sign-in and sign-up pages: once the store is ready,
      a signed-in user goes to the dashboard. */
  function AuthRedirect(ready: bool, signedIn: bool): Option<string> {
    if ready && signedIn then Some(Dashboard) else None
  }

  lemma AuthRedirectSpec(ready: bool, signedIn: bool)
    ensures AuthRedirect(ready, signedIn).Some? <==> ready && signedIn
    ensures AuthRedirect(ready, signedIn).Some? ==> AuthRedirect(ready, signedIn).value == Dashboard
  {
  }
}
