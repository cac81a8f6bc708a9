/**
 * `ResetPasswordScreen.handleResetPassword`: three checks in order, then a
 * success alert whose OK button goes to the login screen. No reset request is
 * sent, and the `email` route parameter is never used.
 */
module ResetPasswordScreen {
  import opened Wrappers
  import opened AppShell
  import JsString

  const FillAllFieldsMessage := "Please fill in all fields"
  const MismatchMessage := "Passwords do not match"
  const TooShortMessage := "Password must be at least 6 characters"
  const SuccessMessage := "Password reset successfully"
  const MinPasswordLength := 6

  /**
   * The checks, in order: an empty field, then a mismatch, then a password
   * shorter than 6 UTF-16 code units. Each error is reported only when the
   * earlier checks pass.
   */
  function ResetPasswordCheck(newPassword: string, confirmPassword: string): (error: Option<string>)
    ensures (newPassword == [] || confirmPassword == []) <==> error == Some(FillAllFieldsMessage)
    ensures error == Some(MismatchMessage) <==>
      newPassword != [] && confirmPassword != [] && newPassword != confirmPassword
    ensures error == Some(TooShortMessage) <==>
      newPassword != [] && newPassword == confirmPassword && JsString.Utf16Length(newPassword) < MinPasswordLength
    ensures error.None? <==> newPassword == confirmPassword && JsString.Utf16Length(newPassword) >= MinPasswordLength
  {
    if newPassword == [] || confirmPassword == [] then Some(FillAllFieldsMessage)
    else if newPassword != confirmPassword then Some(MismatchMessage)
    else if JsString.Utf16Length(newPassword) < MinPasswordLength then Some(TooShortMessage)
    else None
  }

  /** `handleResetPassword`: an error alert, or the success alert leading to Login; nothing is stored or sent. */
  method HandleResetPassword(device: Device, newPassword: string, confirmPassword: string)
    modifies device
    ensures device.storedToken == old(device.storedToken) && device.route == old(device.route)
    ensures ResetPasswordCheck(newPassword, confirmPassword).Some? ==>
      && device.alerts == old(device.alerts) + [Alert("Error", ResetPasswordCheck(newPassword, confirmPassword), None)]
      && device.loading == old(device.loading)
    ensures ResetPasswordCheck(newPassword, confirmPassword).None? ==>
      && device.alerts == old(device.alerts) + [Alert("Success", Some(SuccessMessage), Some(Login))]
      && !device.loading
  {
    var error := ResetPasswordCheck(newPassword, confirmPassword);
    if error.Some? {
      device.ShowError(error);
      return;
    }
    device.loading := true;
    device.alerts := device.alerts + [Alert("Success", Some(SuccessMessage), Some(Login))];
    device.loading := false;
  }
}
