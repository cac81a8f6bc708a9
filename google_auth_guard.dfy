/**
 * `GoogleAuthGuard.getAuthenticateOptions`: the app's redirect target travels
 * through Google as the OAuth 2.0 `state` parameter (section 4.1.1 of
 * RFC 6749), percent-encoded.
 */
module GoogleAuthGuard {
  import opened Wrappers
  import opened Http
  import Uri

  /** The options object handed to passport: `{ state }` or `{}`. */
  datatype AuthenticateOptions = AuthenticateOptions(state: Option<string>)

  /**
   * A non-empty string `redirect` becomes `{ state: encodeURIComponent(redirect) }`;
   * a missing, empty, array or object value gives `{}`. The state then holds
   * only unreserved characters and `%` escapes, and is never empty.
   */
  function GetAuthenticateOptions(redirect: QueryValue): (o: AuthenticateOptions)
    ensures o.state.Some? <==> redirect.Text? && redirect.value != []
    ensures o.state.Some? ==> o.state.value != [] && |o.state.value| >= |redirect.value|
    ensures o.state.Some? ==> forall i :: 0 <= i < |o.state.value| ==> Uri.IsUnreserved(o.state.value[i]) || o.state.value[i] == '%'
  {
    if redirect.Text? && |redirect.value| > 0 then AuthenticateOptions(Some(Uri.EncodeURIComponent(redirect.value)))
    else AuthenticateOptions(None)
  }

  /** The state decodes back to the redirect it was made from. */
  lemma StateDecodesToRedirect(redirect: string)
    requires redirect != []
    ensures Uri.DecodeURIComponent(GetAuthenticateOptions(Text(redirect)).state.value) == Some(redirect)
  {
    Uri.DecodeEncode(redirect);
  }
}
