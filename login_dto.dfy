/** `LoginDto`: the declared shape of the login body. */
module LoginDto {
  import opened Wrappers
  import opened DtoCommon
  import JsString

  /** The raw body fields. */
  datatype LoginRequest = LoginRequest(email: JsValue, password: JsValue)

  /** A body that passed validation. */
  datatype LoginDto = LoginDto(email: string, password: string)

  const MinPasswordLength := 6

  /**
   * Transform, then validate: the email is trimmed and lower-cased and must
   * pass `isEmail` (validator.js, taken as a parameter); the password must be a
   * string of at least 6 and is kept as sent, untrimmed.
   */
  function Validate(body: LoginRequest, isEmail: string -> bool): (r: Option<LoginDto>)
    ensures r.Some? ==> JsString.IsTrimmed(r.value.email) && JsString.IsLower(r.value.email) && isEmail(r.value.email)
    ensures r.Some? ==> body.password == Str(r.value.password) && ValidatorLength(r.value.password) >= 6
    ensures body.email.Other? || body.password.Other? ==> r.None?
    ensures body.email.Str? && body.password.Str? ==>
      (r.Some? <==> isEmail(JsString.ToLower(JsString.Trim(body.email.s))) && ValidatorLength(body.password.s) >= 6)
  {
    var email := EmailTransform(body.email);
    if email.Str? && isEmail(email.s) && IsStringOfMinLength(body.password, MinPasswordLength)
    then Some(LoginDto(email.s, body.password.s))
    else None
  }

  /** A validated body validates again to itself: normalisation is already done. */
  lemma ValidatedIsFixedPoint(body: LoginRequest, isEmail: string -> bool)
    requires Validate(body, isEmail).Some?
    ensures var d := Validate(body, isEmail).value;
      Validate(LoginRequest(Str(d.email), Str(d.password)), isEmail) == Some(d)
  {
    var d := Validate(body, isEmail).value;
    EmailTransformIdempotent(body.email);
    assert EmailTransform(body.email) == Str(d.email);
    assert EmailTransform(Str(d.email)) == Str(d.email);
  }
}
