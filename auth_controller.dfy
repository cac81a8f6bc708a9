/**
 * `AuthController`: the login endpoint's null-to-401 rule, and the OAuth
 * callbacks, which pick where to send the app back to (the decoded Google
 * `state`, or the `oauth_redirect` cookie for Facebook and Apple, else the
 * default deep link) and append the access token to it.
 */
module AuthController {
  import opened Wrappers
  import opened Http
  import opened UserSchema
  import opened UsersService
  import opened Crypto
  import opened AuthService
  import Uri
  import GoogleAuthGuard

  const DefaultDeepLink := "daccess://auth/callback"
  const InvalidCredentialsMessage := "Invalid credentials"
  const RedirectCookie := "oauth_redirect"
  const RedirectCookieMaxAgeMs := 600000

  /**
   * `getRedirectUri`: a non-empty string `state` is percent-decoded, or kept as
   * it is when decoding throws; anything else gives the default deep link.
   */
  function GetRedirectUri(state: QueryValue): (uri: string)
    ensures uri != []
    ensures !(state.Text? && state.value != []) ==> uri == DefaultDeepLink
    ensures state.Text? && state.value != [] && Uri.DecodeURIComponent(state.value).Some? ==>
      uri == Uri.DecodeURIComponent(state.value).value
    ensures state.Text? && state.value != [] && Uri.DecodeURIComponent(state.value).None? ==> uri == state.value
  {
    if state.Text? && |state.value| > 0 then
      match Uri.DecodeURIComponent(state.value)
      case Some(decoded) => decoded
      case None => state.value
    else DefaultDeepLink
  }

  /**
   * The redirect the Google guard sends out as `state` comes back from the
   * callback's `getRedirectUri` unchanged, never replaced by the default.
   */
  lemma GoogleStateRoundTrip(redirect: string)
    requires redirect != []
    ensures GoogleAuthGuard.GetAuthenticateOptions(Text(redirect)).state.Some?
    ensures GetRedirectUri(Text(GoogleAuthGuard.GetAuthenticateOptions(Text(redirect)).state.value)) == redirect
  {
    GoogleAuthGuard.StateDecodesToRedirect(redirect);
  }

  /** A state with a broken escape (here a trailing `%`) is used as the redirect verbatim. */
  lemma MalformedStateKeptRaw(s: string)
    requires forall i :: 0 <= i < |s| ==> s[i] != '%'
    ensures GetRedirectUri(Text(s + "%")) == s + "%"
  {
    Uri.TrailingPercentFails(s);
  }

  /** `${redirectBase}?token=${access_token}`, the token not encoded. */
  function RedirectUrl(base: string, token: string): (url: string)
    ensures |url| == |base| + 7 + |token|
    ensures url[..|base|] == base && url[|base|..|base| + 7] == "?token=" && url[|base| + 7..] == token
  {
    base + "?token=" + token
  }

  /**
   * `POST /auth/login`: 401 'Invalid credentials' when `validateUser` gives
   * null, otherwise the token and the hash-free user from `login`.
   */
  function LoginEndpoint(p: Primitives, s: seq<Account>, email: string, password: string): (r: Result<LoginResult, AuthError>)
    ensures r.Ok? ==>
      exists i :: 0 <= i < |s| && s[i].email == email && s[i].passwordHash.Some?
        && p.bcryptCompare(password, s[i].passwordHash.value)
        && r.value.user == StripPasswordHash(s[i])
        && r.value.accessToken == Login(p, s[i]).accessToken
    ensures EmailsUnique(s) ==>
      (r == Err(Unauthorized(InvalidCredentialsMessage)) <==>
        forall i :: 0 <= i < |s| && s[i].email == email ==>
          s[i].passwordHash.Some? && !p.bcryptCompare(password, s[i].passwordHash.value))
  {
    match ValidateUser(p, s, email, password)
    case Err(e) => Err(e)
    case Ok(None) => Err(Unauthorized(InvalidCredentialsMessage))
    case Ok(Some(user)) => Ok(Login(p, user))
  }

  /**
   * After `register`, logging in with the same email and password succeeds,
   * and the token is the one the registration response carried.
   */
  lemma RegisterThenLogin(p: Primitives, s: seq<Account>, nextId: nat, b: RegisterBody, salt: string)
    requires Sound(p)
    requires FindOne(s, ByEmail(b.email)).None?
    ensures var a := WithDefaults(nextId, LocalUser(b, p.bcryptHash(b.password, salt)));
      && LoginEndpoint(p, s + [a], b.email, b.password) == Ok(Login(p, StripPasswordHash(a)))
      && Login(p, StripPasswordHash(a)).accessToken == Login(p, a).accessToken
  {
    var a := WithDefaults(nextId, LocalUser(b, p.bcryptHash(b.password, salt)));
    RegisterThenValidate(p, s, nextId, b, salt);
    TokenDependsOnClaimsOnly(p, a, a);
  }

  /** A cookie the response sets: its value and the `httpOnly` and `maxAge` options. */
  datatype Cookie = Cookie(value: QueryValue, httpOnly: bool, maxAgeMs: int)

  /** `req.cookies?.oauth_redirect || DEFAULT_DEEP_LINK`. */
  function CookieRedirectBase(cookies: map<string, Cookie>): (base: string)
    ensures RedirectCookie !in cookies ==> base == DefaultDeepLink
    ensures RedirectCookie in cookies && cookies[RedirectCookie].value.Text? && cookies[RedirectCookie].value.value != [] ==>
      base == cookies[RedirectCookie].value.value
    ensures RedirectCookie in cookies && !IsTruthy(cookies[RedirectCookie].value) ==> base == DefaultDeepLink
    ensures RedirectCookie in cookies && IsTruthy(cookies[RedirectCookie].value) ==> base == Render(cookies[RedirectCookie].value)
  {
    if RedirectCookie in cookies && IsTruthy(cookies[RedirectCookie].value) then Render(cookies[RedirectCookie].value)
    else DefaultDeepLink
  }

  /** The app's side of the OAuth round trip: the cookies it holds for the API and the URL it was last sent to. */
  class Browser {
    var cookies: map<string, Cookie>
    var location: Option<string>

    constructor ()
      ensures cookies == map[] && location == None
    {
      cookies := map[];
      location := None;
    }
  }

  /** The controller over one authentication service. */
  class Controller {
    const auth: Authenticator

    constructor (auth: Authenticator)
      ensures this.auth == auth
    {
      this.auth := auth;
    }

    /**
     * `GET /auth/facebook` and `GET /auth/apple` as their handler bodies read:
     * a truthy `redirect` is kept in an http-only `oauth_redirect` cookie for
     * ten minutes; otherwise no cookie is set. This is the behaviour the
     * callbacks rely on; as routed, the guard in front of the handler never
     * lets it run (see `GuardedStartCookieLogin`).
     */
    method StartCookieLogin(browser: Browser, redirect: QueryValue)
      modifies browser
      ensures browser.location == old(browser.location)
      ensures IsTruthy(redirect) ==>
        browser.cookies == old(browser.cookies)[RedirectCookie := Cookie(redirect, true, RedirectCookieMaxAgeMs)]
      ensures !IsTruthy(redirect) ==> browser.cookies == old(browser.cookies)
    {
      if IsTruthy(redirect) {
        browser.cookies := browser.cookies[RedirectCookie := Cookie(redirect, true, RedirectCookieMaxAgeMs)];
      }
    }

    /**
     * `GET /auth/facebook` and `GET /auth/apple` as routed: the provider's
     * passport guard answers the request itself with a redirect to the
     * provider's sign-in page (`providerUrl`), so the handler that would store
     * the redirect cookie never runs and the cookies are left as they were.
     */
    method GuardedStartCookieLogin(browser: Browser, redirect: QueryValue, providerUrl: string)
      modifies browser
      ensures browser.cookies == old(browser.cookies)
      ensures browser.location == Some(providerUrl)
    {
      browser.location := Some(providerUrl);
    }

    /**
     * `GET /auth/facebook/callback` and `GET /auth/apple/callback`: log the
     * profile in, then send the app to the cookie's redirect, or the default
     * deep link, with the token appended, clearing the cookie. A failed login
     * leaves the browser as it was.
     */
    method CookieCallback(browser: Browser, provider: string, profile: SocialProfile) returns (r: Result<string, AuthError>)
      requires auth.Valid()
      modifies browser, auth.users
      ensures auth.Valid()
      ensures var u := SocialUpsert(old(auth.users.accounts), old(auth.users.nextId), SocialDataOf(provider, profile));
        && auth.users.accounts == u.accounts && auth.users.nextId == u.nextId
        && (u.result.Ok? ==> r == Ok(BuildToken(auth.crypto, u.result.value)))
        && (u.result.Err? ==> r == Err(Store(u.result.error)))
      ensures r.Ok? ==>
        && browser.location == Some(RedirectUrl(CookieRedirectBase(old(browser.cookies)), r.value))
        && browser.cookies == old(browser.cookies) - {RedirectCookie}
      ensures r.Err? ==> browser.cookies == old(browser.cookies) && browser.location == old(browser.location)
    {
      r := auth.SocialLogin(provider, profile);
      if r.Ok? {
        var base := CookieRedirectBase(browser.cookies);
        browser.cookies := browser.cookies - {RedirectCookie};
        browser.location := Some(RedirectUrl(base, r.value));
      }
    }

    /**
     * `GET /auth/google/callback`: log the profile in, then send the app to
     * the redirect recovered from `state` with the token appended.
     */
    method GoogleCallback(browser: Browser, profile: SocialProfile, state: QueryValue) returns (r: Result<string, AuthError>)
      requires auth.Valid()
      modifies browser, auth.users
      ensures auth.Valid()
      ensures var u := SocialUpsert(old(auth.users.accounts), old(auth.users.nextId), SocialDataOf("google", profile));
        && auth.users.accounts == u.accounts && auth.users.nextId == u.nextId
        && (u.result.Ok? ==> r == Ok(BuildToken(auth.crypto, u.result.value)))
        && (u.result.Err? ==> r == Err(Store(u.result.error)))
      ensures browser.cookies == old(browser.cookies)
      ensures r.Ok? ==> browser.location == Some(RedirectUrl(GetRedirectUri(state), r.value))
      ensures r.Err? ==> browser.location == old(browser.location)
    {
      r := auth.SocialLogin("google", profile);
      if r.Ok? {
        browser.location := Some(RedirectUrl(GetRedirectUri(state), r.value));
      }
    }
  }

  /**
   * The intended Facebook or Apple round trip: once the start route has
   * stored a non-empty redirect, completing the login sends the app back to
   * that redirect, and the cookie is gone.
   */
  method CookieLoginRoundTrip(controller: Controller, browser: Browser, redirect: string, provider: string, profile: SocialProfile)
    returns (r: Result<string, AuthError>)
    requires controller.auth.Valid()
    requires redirect != []
    modifies browser, controller.auth.users
    ensures r.Ok? ==> browser.location == Some(RedirectUrl(redirect, r.value))
    ensures RedirectCookie !in browser.cookies || r.Err?
  {
    controller.StartCookieLogin(browser, Text(redirect));
    r := controller.CookieCallback(browser, provider, profile);
  }

  /**
   * The Facebook or Apple round trip as routed: the guard ends the start
   * request before the cookie is stored, so a successful login always lands on
   * the default deep link, never on a different redirect the app asked for.
   */
  method RoutedCookieLoginRoundTrip(
    controller: Controller, browser: Browser, redirect: string, providerUrl: string, provider: string, profile: SocialProfile)
    returns (r: Result<string, AuthError>)
    requires controller.auth.Valid()
    requires RedirectCookie !in browser.cookies
    modifies browser, controller.auth.users
    ensures r.Ok? ==> browser.location == Some(RedirectUrl(DefaultDeepLink, r.value))
    ensures r.Ok? && redirect != DefaultDeepLink ==> browser.location != Some(RedirectUrl(redirect, r.value))
  {
    controller.GuardedStartCookieLogin(browser, Text(redirect), providerUrl);
    r := controller.CookieCallback(browser, provider, profile);
    if r.Ok? && redirect != DefaultDeepLink {
      var landed := RedirectUrl(DefaultDeepLink, r.value);
      var wanted := RedirectUrl(redirect, r.value);
      if |redirect| == |DefaultDeepLink| {
        assert wanted[..|redirect|] != landed[..|DefaultDeepLink|];
      }
    }
  }
}
