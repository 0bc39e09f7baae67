/** src/modules/auth/LoginPage.tsx: the sign-in form. A password sign-in
    either registers an unknown email, checks the stored password, or
    points a Google account to the Google button; the Google button signs
    in any well-formed email, registering it with an empty password. The
    email pattern (`EMAIL_REGEX`) is a parameter: src/core/constants is not
    part of this model. */
module LoginPage {
  import opened Types
  import opened StorageService
  import opened AuthStore

  const EmailRequired := "Email is required"
  const EmailInvalid := "Invalid email format"
  const PasswordRequired := "Password is required"
  const PasswordIncorrect := "Password is Incorrect."
  const GoogleWithPassword := "This account connect with google. Please use Google Sign In."
  const GoogleWithoutPassword := "Please use Google Sign In for this account."
  const TodosRoute := "/todos"

  /** The message `login_validateEmail` leaves ("" when the email passes). */
  function EmailError(email: string, pattern: string -> bool): (m: string)
    ensures m == "" <==> email != "" && pattern(email)
    ensures m == EmailRequired <==> email == ""
    ensures m == EmailInvalid <==> email != "" && !pattern(email)
  {
    if email == "" then EmailRequired
    else if !pattern(email) then EmailInvalid
    else ""
  }

  /** Where `login_handleLogin` ends, before any storage write. */
  datatype LoginStep =
    | BadEmail(message: string)
    | MissingPassword
    | Register
    | SignIn
    | WrongPassword
    | UseGoogle(message: string)

  /** The branch `login_handleLogin` takes for the typed email and password
      against the stored users. */
  function LoginDecision(email: string, password: string, pattern: string -> bool, users: Users): LoginStep {
    if EmailError(email, pattern) != "" then BadEmail(EmailError(email, pattern))
    else if email !in users then (if password == "" then MissingPassword else Register)
    else if HasPassword(users[email].user) then
      (if ValidatedUser(users, email, password).Some? then SignIn else WrongPassword)
    else UseGoogle(if password != "" then GoogleWithPassword else GoogleWithoutPassword)
  }

  /** A password sign-in gets through exactly for a well-formed email that
      is either unknown (with a password to register) or stored with that
      same non-empty password. */
  lemma LoginGetsThrough(email: string, password: string, pattern: string -> bool, users: Users)
    ensures LoginDecision(email, password, pattern, users) in {Register, SignIn} <==>
      && email != "" && pattern(email)
      && (|| (email !in users && password != "")
          || (email in users && users[email].user.password == Some(password) && password != ""))
  {
  }

  /** A Google account (no usable password) can never be entered with a
      password, whatever is typed. */
  lemma GoogleAccountsRefusePasswords(email: string, password: string, pattern: string -> bool, users: Users)
    requires email in users && !HasPassword(users[email].user)
    ensures LoginDecision(email, password, pattern, users) !in {Register, SignIn}
  {
  }

  /** Registering then signing in again with the same credentials gets in. */
  lemma RegisterThenSignIn(email: string, password: string, pattern: string -> bool, users: Users)
    requires LoginDecision(email, password, pattern, users) == Register
    ensures LoginDecision(email, password, pattern, WithUser(users, User(email, Some(password)))) == SignIn
  {
  }

  /** After a Google registration the password form points to Google. */
  lemma GoogleRegistrationThenPassword(email: string, password: string, pattern: string -> bool, users: Users)
    requires email != "" && pattern(email) && email !in users
    ensures LoginDecision(email, password, pattern, WithUser(users, User(email, Some("")))).UseGoogle?
  {
  }

  class Form {
    var email: string
    var password: string
    var emailError: string
    var passwordError: string
    var googleError: string
    var showPassword: bool
    /** The route last passed to `navigate`, if any. */
    var navigatedTo: Option<string>
    const emailPattern: string -> bool
    const auth: Auth

    constructor (emailPattern: string -> bool, auth: Auth)
      ensures email == "" && password == "" && emailError == "" && passwordError == "" && googleError == ""
      ensures !showPassword && navigatedTo == None
      ensures this.emailPattern == emailPattern && this.auth == auth
    {
      email, password, emailError, passwordError, googleError := "", "", "", "", "";
      showPassword, navigatedTo := false, None;
      this.emailPattern, this.auth := emailPattern, auth;
    }

    /** Typing an email clears all three messages. */
    method EditEmail(value: string)
      modifies this`email, this`emailError, this`passwordError, this`googleError
      ensures email == value && emailError == "" && passwordError == "" && googleError == ""
    {
      email, emailError, passwordError, googleError := value, "", "", "";
    }

    /** Typing a password clears the password and Google messages. */
    method EditPassword(value: string)
      modifies this`password, this`passwordError, this`googleError
      ensures password == value && passwordError == "" && googleError == ""
    {
      password, passwordError, googleError := value, "", "";
    }

    /** `login_handleClickShowPassword`. */
    method ToggleShowPassword()
      modifies this`showPassword
      ensures showPassword == !old(showPassword)
    {
      showPassword := !showPassword;
    }

    /** `login_validateEmail` (also run when the email field loses focus). */
    method ValidateEmail(input: string) returns (ok: bool)
      modifies this`emailError
      ensures emailError == EmailError(input, emailPattern)
      ensures ok <==> emailError == ""
    {
      if input == "" {
        emailError := EmailRequired;
        return false;
      }
      if !emailPattern(input) {
        emailError := EmailInvalid;
        return false;
      }
      emailError := "";
      return true;
    }

    /** `login_handleLogin`. The messages are cleared, then set by the
        decision; `Register` adds the user and signs in, `SignIn` signs in,
        and both then go to the todo route. `err` is a storage exception,
        which ends the handler where it is thrown. */
    method HandleLogin() returns (err: Option<string>)
      modifies this`emailError, this`passwordError, this`googleError, this`navigatedTo, auth, auth.storage
      ensures var d := LoginDecision(email, password, emailPattern, old(auth.storage.users));
        && emailError == (if d.BadEmail? then d.message else "")
        && passwordError == (if d == MissingPassword then PasswordRequired else if d == WrongPassword then PasswordIncorrect else "")
        && googleError == (if d.UseGoogle? then d.message else "")
        && (d !in {Register, SignIn} ==>
              err == None && navigatedTo == old(navigatedTo) && unchanged(auth, auth.storage))
        && (d in {Register, SignIn} ==>
              && err == auth.storage.writeFailure
              && auth.storage.users == (if d == Register && err.None?
                                        then WithUser(old(auth.storage.users), User(email, Some(password)))
                                        else old(auth.storage.users))
              && auth.isLoading == old(auth.isLoading)
              && (err.None? ==> auth.storage.loggedIn == Some(email) && auth.isAuthenticated && auth.error == None
                                && navigatedTo == Some(TodosRoute))
              && (err.Some? ==> auth.storage.loggedIn == old(auth.storage.loggedIn)
                                && auth.isAuthenticated == old(auth.isAuthenticated) && auth.error == old(auth.error)
                                && navigatedTo == old(navigatedTo)))
    {
      googleError, emailError, passwordError := "", "", "";
      err := None;
      var ok := ValidateEmail(email);
      if !ok {
        return;
      }
      var existing := UserOf(auth.storage.users, email);
      if existing.None? {
        if password == "" {
          passwordError := PasswordRequired;
          return;
        }
        err := auth.storage.AddUser(User(email, Some(password)));
        if err.Some? {
          return;
        }
        err := auth.Login(email);
        if err.Some? {
          return;
        }
        navigatedTo := Some(TodosRoute);
        return;
      }
      if TruthyOpt(existing.value.password) {
        var validated := ValidatedUser(auth.storage.users, email, password);
        if validated.Some? {
          err := auth.Login(email);
          if err.Some? {
            return;
          }
          navigatedTo := Some(TodosRoute);
        } else {
          passwordError, googleError := PasswordIncorrect, "";
        }
        return;
      }
      if password != "" {
        googleError := GoogleWithPassword;
      } else {
        googleError := GoogleWithoutPassword;
      }
    }

    /** `login_handleGoogleLogin`: only the email message is reset; a
        well-formed email is registered with an empty password when
        unknown, signed in, and sent to the todo route. */
    method HandleGoogleLogin() returns (err: Option<string>)
      modifies this`emailError, this`navigatedTo, auth, auth.storage
      ensures emailError == EmailError(email, emailPattern)
      ensures emailError != "" ==> err == None && navigatedTo == old(navigatedTo) && unchanged(auth, auth.storage)
      ensures emailError == "" ==>
        && err == auth.storage.writeFailure
        && auth.storage.users == (if err.None? then WithUser(old(auth.storage.users), User(email, Some("")))
                                  else old(auth.storage.users))
        && auth.isLoading == old(auth.isLoading)
        && (err.None? ==> auth.storage.loggedIn == Some(email) && auth.isAuthenticated && auth.error == None
                          && navigatedTo == Some(TodosRoute))
        && (err.Some? ==> auth.storage.loggedIn == old(auth.storage.loggedIn)
                          && auth.isAuthenticated == old(auth.isAuthenticated) && auth.error == old(auth.error)
                          && navigatedTo == old(navigatedTo))
    {
      err := None;
      var googleEmail := email;
      var ok := ValidateEmail(googleEmail);
      if !ok {
        return;
      }
      var user := UserOf(auth.storage.users, googleEmail);
      if user.None? {
        err := auth.storage.AddUser(User(googleEmail, Some("")));
        if err.Some? {
          return;
        }
      }
      err := auth.Login(googleEmail);
      if err.Some? {
        return;
      }
      navigatedTo := Some(TodosRoute);
    }
  }
}
