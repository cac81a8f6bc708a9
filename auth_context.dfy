/**
 * The app's session (`AuthContext`): restoring a stored token at start-up,
 * taking the token out of an OAuth deep link with its two de-duplication
 * guards, email login and registration, logout, `isAuthenticated`, and the URL
 * that starts a social login. Secure storage is the `stored` field; every
 * server answer is a parameter.
 */
module AuthContext {
  import opened Wrappers
  import Uri
  import AuthController

  /** The user record `/auth/me` and the login responses carry. */
  datatype AuthUser = AuthUser(id: string, email: string, firstName: string, lastName: string, role: string)

  /** A login or registration response: `{ access_token, user }`. */
  datatype SignInData = SignInData(accessToken: string, user: AuthUser)

  /** Position p starts a match of `/[?&]token=([^&]+)/`. */
  predicate TokenAt(url: string, p: nat) {
    && p + 7 < |url|
    && (url[p] == '?' || url[p] == '&')
    && url[p + 1..p + 7] == "token="
    && url[p + 7] != '&'
  }

  /** `[^&]+` taken greedily: the text up to the next `&` or the end. */
  function UpToAmp(s: string): (r: string)
    ensures |r| <= |s| && r == s[..|r|]
    ensures forall i :: 0 <= i < |r| ==> r[i] != '&'
    ensures |r| == |s| || s[|r|] == '&'
  {
    if s == [] || s[0] == '&' then [] else [s[0]] + UpToAmp(s[1..])
  }

  /** A string without `&` is taken whole. */
  lemma {:induction false} UpToAmpWithoutAmp(s: string)
    requires forall i :: 0 <= i < |s| ==> s[i] != '&'
    ensures UpToAmp(s) == s
  {
    if s != [] {
      UpToAmpWithoutAmp(s[1..]);
      assert [s[0]] + s[1..] == s;
    }
  }

  /** The capture group of the leftmost match at or after p. */
  function TokenMatchFrom(url: string, p: nat): (r: Option<string>)
    requires p <= |url|
    ensures r.None? ==> forall q :: p <= q < |url| ==> !TokenAt(url, q)
    ensures r.Some? ==> r.value != [] && forall i :: 0 <= i < |r.value| ==> r.value[i] != '&'
    decreases |url| - p
  {
    if p == |url| then None
    else if TokenAt(url, p) then Some(UpToAmp(url[p + 7..]))
    else TokenMatchFrom(url, p + 1)
  }

  /** `url.match(/[?&]token=([^&]+)/)?.[1]`: the raw token text, or None when the URL has no token parameter. */
  function TokenParam(url: string): Option<string> {
    TokenMatchFrom(url, 0)
  }

  /** The leftmost match wins: when q matches and nothing in [p, q) does, the capture is taken at q. */
  lemma {:induction false} TokenMatchFirst(url: string, p: nat, q: nat)
    requires p <= q && TokenAt(url, q)
    requires forall k :: p <= k < q ==> !TokenAt(url, k)
    ensures TokenMatchFrom(url, p) == Some(UpToAmp(url[q + 7..]))
    decreases q - p
  {
    if p < q {
      TokenMatchFirst(url, p + 1, q);
    }
  }

  /** In `base?token=<jwt>`, the first match starts at the `?`, when the base has no `?` or `&`. */
  lemma RedirectUrlMatch(base: string, token: string)
    requires forall i :: 0 <= i < |base| ==> base[i] != '?' && base[i] != '&'
    requires token != [] && token[0] != '&'
    ensures var url := AuthController.RedirectUrl(base, token);
      TokenAt(url, |base|) && url[|base| + 7..] == token && forall k :: 0 <= k < |base| ==> !TokenAt(url, k)
  {
    var url := AuthController.RedirectUrl(base, token);
    assert url[|base| + 1..|base| + 7] == "token=";
    forall k | 0 <= k < |base|
      ensures !TokenAt(url, k)
    {
      assert url[k] == base[k];
    }
  }

  /**
   * The redirect the back end builds, `base?token=<jwt>`, hands the app back
   * exactly the token it issued, when the base has no `?` or `&` and the token
   * has no `&` or `%` (a compact JWT is base64url text and dots).
   */
  lemma IssuedTokenReachesApp(base: string, token: string)
    requires forall i :: 0 <= i < |base| ==> base[i] != '?' && base[i] != '&'
    requires token != [] && forall i :: 0 <= i < |token| ==> token[i] != '&' && token[i] != '%'
    ensures TokenParam(AuthController.RedirectUrl(base, token)) == Some(token)
    ensures Uri.DecodeURIComponent(token) == Some(token)
  {
    var url := AuthController.RedirectUrl(base, token);
    RedirectUrlMatch(base, token);
    TokenMatchFirst(url, 0, |base|);
    assert UpToAmp(token) == token by {
      UpToAmpWithoutAmp(token);
    }
    Uri.DecodeWithoutPercent(token);
  }

  /** Everything of a social login URL before the encoded redirect. */
  function SocialAuthPrefix(baseUrl: string, provider: string): string {
    baseUrl + "/auth/" + provider + "?redirect="
  }

  /** `${baseUrl}/auth/${provider}?redirect=${encodeURIComponent(redirect)}`. */
  function SocialAuthUrl(baseUrl: string, provider: string, redirect: string): (url: string)
    ensures |url| >= |SocialAuthPrefix(baseUrl, provider)| + |redirect|
    ensures url[..|SocialAuthPrefix(baseUrl, provider)|] == SocialAuthPrefix(baseUrl, provider)
  {
    SocialAuthPrefix(baseUrl, provider) + Uri.EncodeURIComponent(redirect)
  }

  /**
   * The redirect travels as the last query parameter: its encoded text has no
   * `&`, `#` or `+` to end it early or alter it, and decodes back to the redirect.
   */
  lemma SocialAuthUrlCarriesRedirect(baseUrl: string, provider: string, redirect: string)
    ensures var value := SocialAuthUrl(baseUrl, provider, redirect)[|SocialAuthPrefix(baseUrl, provider)|..];
      && (forall i :: 0 <= i < |value| ==> value[i] != '&' && value[i] != '#' && value[i] != '+')
      && Uri.DecodeURIComponent(value) == Some(redirect)
  {
    var value := Uri.EncodeURIComponent(redirect);
    assert SocialAuthUrl(baseUrl, provider, redirect)[|SocialAuthPrefix(baseUrl, provider)|..] == value;
    forall i | 0 <= i < |value|
      ensures value[i] != '&' && value[i] != '#' && value[i] != '+'
    {
      assert Uri.IsUnreserved(value[i]) || value[i] == '%';
    }
    Uri.DecodeEncode(redirect);
  }

  /** What became of a deep link. */
  datatype DeepLinkOutcome =
    | NoToken               // no token parameter: ignored
    | UndecodableToken      // the token text is not valid percent-encoding: the handler throws, nothing changes
    | AlreadyHandling       // another deep link is still being handled
    | AlreadyHandled        // the same token was already handled successfully
    | Started(jwt: string)  // token stored and set; the profile fetch is under way

  /** The session state of `AuthProvider`. */
  class Session {
    var user: Option<AuthUser>
    var token: Option<string>
    var stored: Option<string>         // the secure-storage entry under `userToken`
    var isLoading: bool
    var inFlight: Option<string>       // the token being handled; `isHandlingDeepLinkRef` is `inFlight.Some?`
    var lastHandledToken: Option<string>

    /** A fresh provider over whatever secure storage holds. */
    constructor (stored: Option<string>)
      ensures this.stored == stored && user.None? && token.None? && isLoading
      ensures inFlight.None? && lastHandledToken.None?
    {
      this.stored := stored;
      user := None;
      token := None;
      isLoading := true;
      inFlight := None;
      lastHandledToken := None;
    }

    /** `!!token && !!user`: an empty token string does not count. */
    predicate IsAuthenticated()
      reads this
    {
      token.Some? && token.value != [] && user.Some?
    }

    /**
     * The start-up effect: a non-empty stored token is checked with `/auth/me`
     * (`fetched`); a profile signs the session in, a failure clears storage.
     * Loading ends either way.
     */
    method Restore(fetched: Option<AuthUser>)
      modifies this
      ensures !isLoading
      ensures inFlight == old(inFlight) && lastHandledToken == old(lastHandledToken)
      ensures old(stored).None? || old(stored) == Some("") ==>
        stored == old(stored) && user == old(user) && token == old(token)
      ensures old(stored).Some? && old(stored) != Some("") && fetched.Some? ==>
        stored == old(stored) && user == fetched && token == old(stored) && IsAuthenticated()
      ensures old(stored).Some? && old(stored) != Some("") && fetched.None? ==>
        stored.None? && user == old(user) && token == old(token)
    {
      if stored.Some? && stored.value != [] {
        if fetched.Some? {
          user := fetched;
          token := stored;
        } else {
          stored := None;
        }
      }
      isLoading := false;
    }

    /**
     * `handleDeepLink` up to its profile fetch: extract and decode the token,
     * drop it while another link is in flight or when it was already handled,
     * and otherwise mark the link in flight, store the token and set it.
     */
    method BeginDeepLink(url: string) returns (o: DeepLinkOutcome)
      modifies this
      ensures user == old(user) && lastHandledToken == old(lastHandledToken) && isLoading == old(isLoading)
      ensures TokenParam(url).None? ==> o == NoToken
      ensures TokenParam(url).Some? && Uri.DecodeURIComponent(TokenParam(url).value).None? ==> o == UndecodableToken
      ensures TokenParam(url).Some? && Uri.DecodeURIComponent(TokenParam(url).value).Some? ==>
        var jwt := Uri.DecodeURIComponent(TokenParam(url).value).value;
        && (old(inFlight).Some? ==> o == AlreadyHandling)
        && (old(inFlight).None? && old(lastHandledToken) == Some(jwt) ==> o == AlreadyHandled)
        && (old(inFlight).None? && old(lastHandledToken) != Some(jwt) ==> o == Started(jwt))
      ensures !o.Started? ==> inFlight == old(inFlight) && stored == old(stored) && token == old(token)
      ensures o.Started? ==>
        o.jwt != [] && inFlight == Some(o.jwt) && stored == Some(o.jwt) && token == Some(o.jwt)
    {
      var raw := TokenParam(url);
      if raw.None? {
        return NoToken;
      }
      var decoded := Uri.DecodeURIComponent(raw.value);
      if decoded.None? {
        return UndecodableToken;
      }
      var jwt := decoded.value;
      if inFlight.Some? {
        return AlreadyHandling;
      }
      if lastHandledToken == Some(jwt) {
        return AlreadyHandled;
      }
      inFlight := Some(jwt);
      stored := Some(jwt);
      token := Some(jwt);
      o := Started(jwt);
    }

    /**
     * `handleDeepLink` after its profile fetch: a profile signs the user in and
     * records the token as handled; a failure clears storage but leaves the
     * in-memory token and the last handled token alone. Either way the link is
     * no longer in flight.
     */
    method FinishDeepLink(fetched: Option<AuthUser>)
      requires inFlight.Some?
      modifies this
      ensures inFlight.None? && token == old(token) && isLoading == old(isLoading)
      ensures fetched.Some? ==>
        user == fetched && lastHandledToken == old(inFlight) && stored == old(stored)
      ensures fetched.None? ==>
        user == old(user) && lastHandledToken == old(lastHandledToken) && stored.None?
    {
      if fetched.Some? {
        user := fetched;
        lastHandledToken := inFlight;
      } else {
        stored := None;
      }
      inFlight := None;
    }

    /** Store a signed-in response's token and set token and user. */
    method Adopt(data: SignInData)
      modifies this
      ensures stored == Some(data.accessToken) && token == Some(data.accessToken) && user == Some(data.user)
      ensures isLoading == old(isLoading) && inFlight == old(inFlight) && lastHandledToken == old(lastHandledToken)
      ensures IsAuthenticated() <==> data.accessToken != []
    {
      stored := Some(data.accessToken);
      token := Some(data.accessToken);
      user := Some(data.user);
    }

    /**
     * `login` and `register`: a response signs the session in; an error is
     * passed on to the caller with the session unchanged.
     */
    method SignIn(response: Result<SignInData, string>) returns (r: Result<SignInData, string>)
      modifies this
      ensures r == response
      ensures response.Err? ==>
        stored == old(stored) && token == old(token) && user == old(user)
      ensures response.Ok? ==>
        stored == Some(response.value.accessToken) && token == Some(response.value.accessToken)
        && user == Some(response.value.user)
      ensures isLoading == old(isLoading) && inFlight == old(inFlight) && lastHandledToken == old(lastHandledToken)
    {
      if response.Ok? {
        Adopt(response.value);
      }
      r := response;
    }

    /** `logout`: storage, token and user are cleared; the last handled deep-link token is kept. */
    method Logout()
      modifies this
      ensures stored.None? && token.None? && user.None? && !IsAuthenticated()
      ensures isLoading == old(isLoading) && inFlight == old(inFlight) && lastHandledToken == old(lastHandledToken)
    {
      stored := None;
      token := None;
      user := None;
    }
  }

  /**
   * A deep link handled to the end signs the session in with its token; the
   * same link arriving again is then dropped without touching anything.
   */
  method DeepLinkTwice(s: Session, url: string, u: AuthUser) returns (first: DeepLinkOutcome, second: DeepLinkOutcome)
    requires s.inFlight.None? && s.lastHandledToken.None?
    modifies s
    ensures first.Started? ==> second == AlreadyHandled && s.user == Some(u) && s.token == Some(first.jwt)
    ensures first.Started? ==> s.IsAuthenticated()
  {
    first := s.BeginDeepLink(url);
    if first.Started? {
      s.FinishDeepLink(Some(u));
    }
    second := s.BeginDeepLink(url);
  }
}
