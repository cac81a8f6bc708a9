/**
 * What the auth screens share: the screen they navigate to, the alerts they
 * raise, the device state they touch (secure storage under `userToken`, the
 * current screen, a `loading` flag), and how they turn a server error into
 * alert text.
 */
module AppShell {
  import opened Wrappers

  datatype Route = Welcome | Login | Signup | ResetPassword | MainTabs

  /** `Alert.alert(title, message, buttons)`; `onOk` is where its OK button navigates, if anywhere. */
  datatype Alert = Alert(title: string, message: Option<string>, onOk: Option<Route>)

  /** `error.response?.data?.message`: missing, one string, or a list of strings. */
  datatype ServerMessage = NoMessage | Message(text: string) | Messages(list: seq<string>)

  /**
   * `message || fallback`, then the first element when it is a list: a
   * missing or empty message gives the fallback, a list its first entry
   * (nothing when the list is empty).
   */
  function ErrorText(m: ServerMessage, fallback: string): (text: Option<string>)
    ensures m.NoMessage? || m == Message("") ==> text == Some(fallback)
    ensures m.Message? && m.text != [] ==> text == Some(m.text)
    ensures m.Messages? ==> (text.Some? <==> m.list != []) && (text.Some? ==> text.value == m.list[0])
  {
    match m
    case NoMessage => Some(fallback)
    case Message(t) => if t == [] then Some(fallback) else Some(t)
    case Messages(list) => if list == [] then None else Some(list[0])
  }

  /** The device as the auth screens see it. */
  class Device {
    var storedToken: Option<string>
    var route: Route
    var alerts: seq<Alert>
    var loading: bool

    constructor (route: Route)
      ensures storedToken.None? && this.route == route && alerts == [] && !loading
    {
      storedToken := None;
      this.route := route;
      alerts := [];
      loading := false;
    }

    /** `Alert.alert('Error', message)`. */
    method ShowError(message: Option<string>)
      modifies this
      ensures alerts == old(alerts) + [Alert("Error", message, None)]
      ensures storedToken == old(storedToken) && route == old(route) && loading == old(loading)
    {
      alerts := alerts + [Alert("Error", message, None)];
    }

    /** `SecureStore.setItemAsync('userToken', token)` then `navigation.replace('MainTabs')`. */
    method EnterApp(token: string)
      modifies this
      ensures storedToken == Some(token) && route == MainTabs
      ensures alerts == old(alerts) && loading == old(loading)
    {
      storedToken := Some(token);
      route := MainTabs;
    }
  }
}
