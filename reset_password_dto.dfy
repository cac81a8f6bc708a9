/** `ResetPasswordDto`: the declared shape of the reset-password body. */
module ResetPasswordDto {
  import opened Wrappers
  import opened DtoCommon
  import JsString
  import Crypto
  import AuthService

  datatype ResetPasswordRequest = ResetPasswordRequest(token: JsValue, newPassword: JsValue)

  datatype ResetPasswordDto = ResetPasswordDto(token: string, newPassword: string)

  const MinPasswordLength := 6

  /** The token is trimmed and must then be non-empty; the new password must have at least 6 and is kept as sent. */
  function Validate(body: ResetPasswordRequest): (r: Option<ResetPasswordDto>)
    ensures r.Some? ==> body.token.Str? && r.value.token == JsString.Trim(body.token.s) && r.value.token != []
    ensures r.Some? ==> body.newPassword == Str(r.value.newPassword) && ValidatorLength(r.value.newPassword) >= 6
    ensures body.token.Str? && body.newPassword.Str? ==>
      (r.Some? <==> ValidatorLength(JsString.Trim(body.token.s)) >= 1 && ValidatorLength(body.newPassword.s) >= 6)
  {
    var token := TrimTransform(body.token);
    if IsStringOfMinLength(token, 1) && IsStringOfMinLength(body.newPassword, MinPasswordLength)
    then Some(ResetPasswordDto(token.s, body.newPassword.s))
    else None
  }

  /** A token of white space only is rejected. */
  lemma BlankTokenRejected(body: ResetPasswordRequest)
    requires body.token.Str? && forall k :: 0 <= k < |body.token.s| ==> JsString.IsWhiteSpace(body.token.s[k])
    ensures Validate(body).None?
  {
    JsString.TrimEmptyIff(body.token.s);
  }

  /**
   * `resetPassword` trims the token once more, so the validated token is
   * looked up under the same hash as the token as sent.
   */
  lemma ServiceHashesSameToken(p: Crypto.Primitives, body: ResetPasswordRequest)
    requires Validate(body).Some?
    ensures AuthService.TicketHash(p, JsString.Trim(Validate(body).value.token))
         == AuthService.TicketHash(p, JsString.Trim(body.token.s))
  {
    JsString.TrimIdempotent(body.token.s);
  }
}
