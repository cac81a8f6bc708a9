/** `getApiBaseUrl`: where the app sends its API calls. */
module ApiConfig {
  import opened Wrappers

  datatype Platform = Android | Ios | Web

  const AndroidEmulatorUrl := "http://10.0.2.2:3000"
  const LocalhostUrl := "http://localhost:3000"

  /**
   * A non-empty `EXPO_PUBLIC_API_URL` is used verbatim whatever the platform;
   * otherwise Android gets the emulator's alias for the host and every other
   * platform localhost. The result is never empty.
   */
  function GetApiBaseUrl(envUrl: Option<string>, platform: Platform): (url: string)
    ensures url != []
    ensures envUrl.Some? && envUrl.value != [] ==> url == envUrl.value
    ensures (envUrl.None? || envUrl.value == []) && platform == Android ==> url == AndroidEmulatorUrl
    ensures (envUrl.None? || envUrl.value == []) && platform != Android ==> url == LocalhostUrl
  {
    if envUrl.Some? && |envUrl.value| > 0 then envUrl.value
    else if platform == Android then AndroidEmulatorUrl
    else LocalhostUrl
  }

  /** The environment value takes precedence: with it set, the platform makes no difference. */
  lemma EnvironmentOverridesPlatform(envUrl: string, p: Platform, q: Platform)
    requires envUrl != []
    ensures GetApiBaseUrl(Some(envUrl), p) == GetApiBaseUrl(Some(envUrl), q)
  {
  }
}
