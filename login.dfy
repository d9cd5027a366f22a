/**
  The login page: e-mail and password sign-in, the mapping from the backend's
  sign-in error to the message shown, and the logout button for an existing session.
 */
module Login {
  import opened Wrappers
  import opened Js
  import opened Backend

  const WrongCredentials: string := "Falsche Zugangsdaten."

  /** The message shown for a failed sign-in. The error's text is lower-cased
      and searched for `invalid login` first, then for `not allowed`; any other
      error is shown as it came. */
  function SignInErrorText(message: string): (r: string)
    ensures r == WrongCredentials || r == NoAccess || r == message
    ensures r != message ==>
      Contains(ToLower(message), "invalid login") || Contains(ToLower(message), "not allowed")
  {
    var lower := ToLower(message);
    if Contains(lower, "invalid login") then WrongCredentials
    else if Contains(lower, "not allowed") then NoAccess
    else message
  }

  /** The three outcomes, with `invalid login` taking precedence over `not allowed`. */
  lemma SignInErrorCases(message: string)
    ensures Contains(ToLower(message), "invalid login") ==> SignInErrorText(message) == WrongCredentials
    ensures !Contains(ToLower(message), "invalid login") && Contains(ToLower(message), "not allowed") ==>
      SignInErrorText(message) == NoAccess
    ensures !Contains(ToLower(message), "invalid login") && !Contains(ToLower(message), "not allowed") ==>
      SignInErrorText(message) == message
  {
  }

  /** The check ignores letter case: a message and its lower-cased form take
      the same branch, so a recognised message maps to the same text either way
      and any other message is shown in the case it came in. */
  lemma SignInErrorIgnoresCase(message: string)
    ensures SignInErrorText(ToLower(message)) ==
      if Contains(ToLower(message), "invalid login") || Contains(ToLower(message), "not allowed")
      then SignInErrorText(message)
      else ToLower(message)
  {
    ToLowerIdempotent(message);
  }

  /** Neither fixed text is itself a recognised error, so mapping a shown
      message again leaves it as it is. */
  lemma SignInErrorIdempotent(message: string)
    ensures SignInErrorText(SignInErrorText(message)) == SignInErrorText(message)
  {
    WrongCredentialsUnrecognised();
    NoAccessUnrecognised();
  }

  lemma WrongCredentialsUnrecognised()
    ensures !Contains(ToLower(WrongCredentials), "invalid login")
    ensures !Contains(ToLower(WrongCredentials), "not allowed")
  {
    var lower := ToLower(WrongCredentials);
    assert 'v' !in lower && 'o' !in lower by {
      forall k | 0 <= k < |lower| ensures lower[k] != 'v' && lower[k] != 'o' {
        assert WrongCredentials[k] !in "vVoO";
      }
    }
    MissingCharNotContained(lower, "invalid login", 2);
    MissingCharNotContained(lower, "not allowed", 1);
  }

  lemma NoAccessUnrecognised()
    ensures !Contains(ToLower(NoAccess), "invalid login")
    ensures !Contains(ToLower(NoAccess), "not allowed")
  {
    var lower := ToLower(NoAccess);
    assert 'v' !in lower && 'd' !in lower by {
      forall k | 0 <= k < |lower| ensures lower[k] != 'v' && lower[k] != 'd' {
        assert NoAccess[k] !in "vVdD";
      }
    }
    MissingCharNotContained(lower, "invalid login", 2);
    MissingCharNotContained(lower, "not allowed", 10);
  }

  /** The backend's usual wrong-password message becomes the wrong-credentials text. */
  lemma InvalidCredentialsScenario()
    ensures SignInErrorText("Invalid login credentials") == WrongCredentials
  {
    var lower := ToLower("Invalid login credentials");
    assert lower[0..13] == "invalid login";
    ContainsInfix(lower, 0, 13, "invalid login");
  }

  class LoginPage {
    var email: string
    var password: string
    var error: Option<string>
    var loading: bool
    var hasSession: bool
    /** The path the router is at. */
    var location: string

    constructor ()
      ensures email == "" && password == "" && error == None && !loading && !hasSession
      ensures location == "/login"
    {
      email, password, error, loading, hasSession := "", "", None, false, false;
      location := "/login";
    }

    /** The sign-in button is disabled while a sign-in runs and whenever the
        backend configuration is missing. */
    function SignInDisabled(envMissing: bool): (r: bool)
      reads this
      ensures envMissing ==> r
      ensures !r ==> !loading
    {
      loading || envMissing
    }

    function SignInLabel(): string
      reads this
    {
      if loading then "Anmeldung…" else "Einloggen"
    }

    /** The session check on mount. */
    method CheckSession(sessionPresent: bool) returns (sent: seq<Request>)
      modifies this`hasSession
      ensures sent == [GetSession] && hasSession == sessionPresent
    {
      sent := [GetSession];
      hasSession := sessionPresent;
    }

    method EditEmail(text: string)
      modifies this`email
      ensures email == text
    {
      email := text;
    }

    method EditPassword(text: string)
      modifies this`password
      ensures password == text
    {
      password := text;
    }

    /** The click up to the awaited sign-in call. */
    method BeginSignIn() returns (request: Request)
      modifies this`loading, this`error
      ensures request == SignInWithPassword(email, password)
      ensures loading && error == None
      ensures SignInDisabled(false) && SignInLabel() == "Anmeldung…"
    {
      loading := true;
      error := None;
      request := SignInWithPassword(email, password);
    }

    /** The rest of the click once the sign-in call has answered: on error the
        mapped message is shown and the page stays; on success the router goes
        to the map. The session flag is not touched either way. */
    method FinishSignIn(signInError: Option<string>)
      modifies this`loading, this`error, this`location
      ensures !loading && !SignInDisabled(false) && SignInLabel() == "Einloggen"
      ensures signInError.Some? ==> error == Some(SignInErrorText(signInError.value)) && location == old(location)
      ensures signInError.None? ==> error == old(error) && location == "/map"
    {
      loading := false;
      if signInError.Some? {
        error := Some(SignInErrorText(signInError.value));
        return;
      }
      location := "/map";
    }

    /** The logout button, offered only while a session is known. */
    method Logout() returns (sent: seq<Request>)
      requires hasSession
      modifies this`hasSession
      ensures sent == [SignOut] && !hasSession
    {
      sent := [SignOut];
      hasSession := false;
    }
  }
}
