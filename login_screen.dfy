/** `LoginScreen.handleLogin`: the empty-field guard, then login, token storage and navigation, or an error alert. */
module LoginScreen {
  import opened Wrappers
  import opened AppShell

  const FillAllFieldsMessage := "Please fill in all fields"
  const LoginFailedMessage := "Login failed"

  /** The guard: both fields must be non-empty. */
  function LoginCheck(email: string, password: string): (error: Option<string>)
    ensures error.None? <==> email != [] && password != []
    ensures error.Some? ==> error.value == FillAllFieldsMessage
  {
    if email == [] || password == [] then Some(FillAllFieldsMessage) else None
  }

  /**
   * `handleLogin`. `response` is the login call's outcome: the access token,
   * or the server's error message. A blank field raises an alert and calls
   * nothing; success stores the token and enters the app; failure raises the
   * server's message or 'Login failed'. `loading` ends false whenever the
   * call was made.
   */
  method HandleLogin(device: Device, email: string, password: string, response: Result<string, ServerMessage>)
    returns (called: bool)
    modifies device
    ensures called <==> LoginCheck(email, password).None?
    ensures !called ==>
      && device.alerts == old(device.alerts) + [Alert("Error", Some(FillAllFieldsMessage), None)]
      && device.storedToken == old(device.storedToken) && device.route == old(device.route)
      && device.loading == old(device.loading)
    ensures called ==> !device.loading
    ensures called && response.Ok? ==>
      && device.storedToken == Some(response.value) && device.route == MainTabs
      && device.alerts == old(device.alerts)
    ensures called && response.Err? ==>
      && device.alerts == old(device.alerts) + [Alert("Error", ErrorText(response.error, LoginFailedMessage), None)]
      && device.storedToken == old(device.storedToken) && device.route == old(device.route)
  {
    var error := LoginCheck(email, password);
    if error.Some? {
      device.ShowError(error);
      return false;
    }
    called := true;
    device.loading := true;
    if response.Ok? {
      device.EnterApp(response.value);
    } else {
      device.ShowError(ErrorText(response.error, LoginFailedMessage));
    }
    device.loading := false;
  }
}
