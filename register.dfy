/** The registration page: the account name and password are checked
    locally before the sign-up request is sent, and the outcome decides
    between the confirmation screen and an error message. The auth
    service is replaced by the error it answers with. */
module Register {
  import opened Wrappers

  const NameTooShort := "Account name should be at least 3 characters"
  const PasswordTooShort := "Password should be at least 6 characters"
  const MinNameLength := 3
  const MinPasswordLength := 6
  const AccountType := "business"
  const PlanPath := "/plan"

  /** The local checks, in order: the name first, then the password. */
  function Validate(name: string, password: string): (r: Option<string>)
    ensures r.None? <==> |name| >= MinNameLength && |password| >= MinPasswordLength
    ensures r.Some? ==> r.value == if |name| < MinNameLength then NameTooShort else PasswordTooShort
  {
    if |name| < MinNameLength then Some(NameTooShort)
    else if |password| < MinPasswordLength then Some(PasswordTooShort)
    else None
  }

  /** The two checks report different messages, so the shown message tells
      which check failed. */
  lemma ValidateDistinguishes(name: string, password: string)
    requires Validate(name, password).Some?
    ensures Validate(name, password) == Some(NameTooShort) <==> |name| < MinNameLength
  {
    assert NameTooShort[0] == 'A' && PasswordTooShort[0] == 'P';
  }

  /** The `signUp` call: credentials, where the confirmation link leads,
      and the metadata stored with the new user. */
  datatype SignUp = SignUp(email: string, password: string, emailRedirectTo: string, name: string, accountType: string)

  class RegisterForm {
    var loading: bool
    var hidePassword: bool
    var name: string
    var email: string
    var password: string
    var registerError: Option<string>
    var confirmationEmailSent: bool

    constructor ()
      ensures !loading && hidePassword && name == "" && email == "" && password == ""
      ensures registerError.None? && !confirmationEmailSent
    {
      loading, hidePassword := false, true;
      name, email, password := "", "", "";
      registerError, confirmationEmailSent := None, false;
    }

    method SetName(value: string)
      modifies this
      ensures name == value
      ensures loading == old(loading) && hidePassword == old(hidePassword) && email == old(email)
      ensures password == old(password) && registerError == old(registerError)
      ensures confirmationEmailSent == old(confirmationEmailSent)
    {
      name := value;
    }

    method SetEmail(value: string)
      modifies this
      ensures email == value
      ensures loading == old(loading) && hidePassword == old(hidePassword) && name == old(name)
      ensures password == old(password) && registerError == old(registerError)
      ensures confirmationEmailSent == old(confirmationEmailSent)
    {
      email := value;
    }

    method SetPassword(value: string)
      modifies this
      ensures password == value
      ensures loading == old(loading) && hidePassword == old(hidePassword) && name == old(name)
      ensures email == old(email) && registerError == old(registerError)
      ensures confirmationEmailSent == old(confirmationEmailSent)
    {
      password := value;
    }

    /** The eye button shows or hides the password. */
    method TogglePassword()
      modifies this
      ensures hidePassword == !old(hidePassword)
      ensures loading == old(loading) && name == old(name) && email == old(email)
      ensures password == old(password) && registerError == old(registerError)
      ensures confirmationEmailSent == old(confirmationEmailSent)
    {
      hidePassword := !hidePassword;
    }

    /** `handleRegister`, with `origin` the page's origin and `signUpError`
        the auth service's error (its message may be empty). Returns the
        sign-up request when one is sent. */
    method HandleRegister(origin: string, signUpError: Option<string>) returns (request: Option<SignUp>)
      modifies this
      ensures !loading
      ensures name == old(name) && email == old(email) && password == old(password)
      ensures hidePassword == old(hidePassword)
      ensures request.Some? <==> Validate(name, password).None?
      ensures request.Some? ==> request.value == SignUp(email, password, origin + PlanPath, name, AccountType)
      ensures confirmationEmailSent == (old(confirmationEmailSent) || (request.Some? && signUpError.None?))
      ensures request.None? ==> registerError == Validate(name, password)
      ensures request.Some? ==> registerError == if signUpError.Some? && signUpError.value != "" then signUpError else None
    {
      loading := true;
      registerError := None;
      var invalid := Validate(name, password);
      if invalid.Some? {
        request := None;
        registerError := invalid;
      } else {
        request := Some(SignUp(email, password, origin + PlanPath, name, AccountType));
        match signUpError
        case None =>
          confirmationEmailSent := true;
        case Some(message) =>
          if message != "" {
            registerError := Some(message);
          }
      }
      loading := false;
    }
  }
}
