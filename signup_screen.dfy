/**
 * `SignupScreen.handleSignup`: required fields first, then the terms box; then
 * register, log in, store the token and enter the app, or raise the server's
 * message or 'Registration failed'.
 */
module SignupScreen {
  import opened Wrappers
  import opened AppShell
  import opened UserSchema
  import AuthService

  const RequiredFieldsMessage := "Please fill in all required fields"
  const AcceptTermsMessage := "Please accept the terms and conditions"
  const RegistrationFailedMessage := "Registration failed"

  /** The form fields `handleSignup` reads (phone and country code are collected but not sent). */
  datatype SignupForm = SignupForm(firstName: string, lastName: string, email: string, password: string, acceptTerms: bool)

  /** The checks, in order: any empty required field, then unaccepted terms. */
  function SignupCheck(f: SignupForm): (error: Option<string>)
    ensures (f.firstName == [] || f.lastName == [] || f.email == [] || f.password == []) ==>
      error == Some(RequiredFieldsMessage)
    ensures (f.firstName != [] && f.lastName != [] && f.email != [] && f.password != []) ==>
      (error.None? <==> f.acceptTerms) && (error.Some? ==> error.value == AcceptTermsMessage)
  {
    if f.firstName == [] || f.lastName == [] || f.email == [] || f.password == [] then Some(RequiredFieldsMessage)
    else if !f.acceptTerms then Some(AcceptTermsMessage)
    else None
  }

  /**
   * The body the screen as written sends: `authApi.register(email, password,
   * fullName)` fills the `firstName` parameter with "first last" and leaves
   * `lastName` undefined, which JSON drops from the body.
   */
  function RegisterBodyAsWritten(f: SignupForm): AuthService.RegisterBody {
    AuthService.RegisterBody(f.email, f.password, Some(f.firstName + " " + f.lastName), None)
  }

  /** The body the form evidently means to send: each name in its own field. */
  function RegisterBodyOf(f: SignupForm): AuthService.RegisterBody {
    AuthService.RegisterBody(f.email, f.password, Some(f.firstName), Some(f.lastName))
  }

  /**
   * As written, the account `register` stores gets the whole name as its
   * first name and an empty last name, although the form required one.
   */
  lemma AsWrittenLosesLastName(f: SignupForm, id: nat, passwordHash: string)
    requires SignupCheck(f).None?
    ensures var a := WithDefaults(id, AuthService.LocalUser(RegisterBodyAsWritten(f), passwordHash));
      a.firstName == f.firstName + " " + f.lastName && a.lastName == "" && a.lastName != f.lastName
  {
  }

  /** With the intended body, the stored account has the first and last name the user typed. */
  lemma IntendedBodyKeepsNames(f: SignupForm, id: nat, passwordHash: string)
    requires SignupCheck(f).None?
    ensures var a := WithDefaults(id, AuthService.LocalUser(RegisterBodyOf(f), passwordHash));
      a.firstName == f.firstName && a.lastName == f.lastName && a.email == f.email && a.role == "user"
  {
  }

  /**
   * `handleSignup`. `registered` and `loggedIn` are the outcomes of the two
   * calls. A failed check raises its alert and sends nothing; otherwise the
   * registration body is sent (`sent`), then, if it succeeded, the login, whose
   * token is stored before the app is entered. Either failure raises the
   * server's message or 'Registration failed'.
   */
  method HandleSignup(device: Device, f: SignupForm, registered: Result<(), ServerMessage>, loggedIn: Result<string, ServerMessage>)
    returns (sent: Option<AuthService.RegisterBody>)
    modifies device
    ensures SignupCheck(f).Some? ==>
      && sent.None?
      && device.alerts == old(device.alerts) + [Alert("Error", SignupCheck(f), None)]
      && device.storedToken == old(device.storedToken) && device.route == old(device.route)
      && device.loading == old(device.loading)
    ensures SignupCheck(f).None? ==> sent == Some(RegisterBodyOf(f)) && !device.loading
    ensures SignupCheck(f).None? && registered.Err? ==>
      && device.alerts == old(device.alerts) + [Alert("Error", ErrorText(registered.error, RegistrationFailedMessage), None)]
      && device.storedToken == old(device.storedToken) && device.route == old(device.route)
    ensures SignupCheck(f).None? && registered.Ok? && loggedIn.Err? ==>
      && device.alerts == old(device.alerts) + [Alert("Error", ErrorText(loggedIn.error, RegistrationFailedMessage), None)]
      && device.storedToken == old(device.storedToken) && device.route == old(device.route)
    ensures SignupCheck(f).None? && registered.Ok? && loggedIn.Ok? ==>
      && device.storedToken == Some(loggedIn.value) && device.route == MainTabs
      && device.alerts == old(device.alerts)
  {
    var error := SignupCheck(f);
    if error.Some? {
      device.ShowError(error);
      return None;
    }
    device.loading := true;
    sent := Some(RegisterBodyOf(f));
    if registered.Err? {
      device.ShowError(ErrorText(registered.error, RegistrationFailedMessage));
    } else if loggedIn.Err? {
      device.ShowError(ErrorText(loggedIn.error, RegistrationFailedMessage));
    } else {
      device.EnterApp(loggedIn.value);
    }
    device.loading := false;
  }
}
