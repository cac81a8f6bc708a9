/** `RegisterDto`: the declared shape of the registration body. It declares no `role`. */
module RegisterDto {
  import opened Wrappers
  import opened DtoCommon
  import JsString

  datatype RegisterRequest = RegisterRequest(email: JsValue, password: JsValue, firstName: JsValue, lastName: JsValue)

  datatype RegisterDto = RegisterDto(email: string, password: string, firstName: string, lastName: string)

  const MinPasswordLength := 6
  const MinNameLength := 1

  /**
   * Transform, then validate: a normalised email that passes `isEmail`, a
   * password of at least 6 kept as sent, and names that are non-empty once
   * trimmed, stored trimmed.
   */
  function Validate(body: RegisterRequest, isEmail: string -> bool): (r: Option<RegisterDto>)
    ensures r.Some? ==> JsString.IsTrimmed(r.value.email) && JsString.IsLower(r.value.email) && isEmail(r.value.email)
    ensures r.Some? ==> body.password == Str(r.value.password) && ValidatorLength(r.value.password) >= 6
    ensures r.Some? ==>
      && body.firstName.Str? && r.value.firstName == JsString.Trim(body.firstName.s) && r.value.firstName != []
      && body.lastName.Str? && r.value.lastName == JsString.Trim(body.lastName.s) && r.value.lastName != []
    ensures body.email.Str? && body.password.Str? && body.firstName.Str? && body.lastName.Str? ==>
      (r.Some? <==>
        && isEmail(JsString.ToLower(JsString.Trim(body.email.s)))
        && ValidatorLength(body.password.s) >= 6
        && ValidatorLength(JsString.Trim(body.firstName.s)) >= 1
        && ValidatorLength(JsString.Trim(body.lastName.s)) >= 1)
  {
    var email := EmailTransform(body.email);
    var first := TrimTransform(body.firstName);
    var last := TrimTransform(body.lastName);
    if email.Str? && isEmail(email.s) && IsStringOfMinLength(body.password, MinPasswordLength)
       && IsStringOfMinLength(first, MinNameLength) && IsStringOfMinLength(last, MinNameLength)
    then Some(RegisterDto(email.s, body.password.s, first.s, last.s))
    else None
  }

  /** A first or last name of white space only is rejected. */
  lemma BlankNameRejected(body: RegisterRequest, isEmail: string -> bool)
    requires body.firstName.Str? || body.lastName.Str?
    requires body.firstName.Str? ==> forall k :: 0 <= k < |body.firstName.s| ==> JsString.IsWhiteSpace(body.firstName.s[k])
    requires body.lastName.Str? ==> forall k :: 0 <= k < |body.lastName.s| ==> JsString.IsWhiteSpace(body.lastName.s[k])
    ensures Validate(body, isEmail).None?
  {
    if body.firstName.Str? {
      JsString.TrimEmptyIff(body.firstName.s);
    } else {
      JsString.TrimEmptyIff(body.lastName.s);
    }
  }

  /** A validated body validates again to itself. */
  lemma ValidatedIsFixedPoint(body: RegisterRequest, isEmail: string -> bool)
    requires Validate(body, isEmail).Some?
    ensures var d := Validate(body, isEmail).value;
      Validate(RegisterRequest(Str(d.email), Str(d.password), Str(d.firstName), Str(d.lastName)), isEmail) == Some(d)
  {
    EmailTransformIdempotent(body.email);
    TrimTransformIdempotent(body.firstName);
    TrimTransformIdempotent(body.lastName);
  }
}
