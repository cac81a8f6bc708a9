/** `ForgotPasswordDto`: the declared shape of the forgot-password body. */
module ForgotPasswordDto {
  import opened Wrappers
  import opened DtoCommon
  import JsString

  datatype ForgotPasswordDto = ForgotPasswordDto(email: string)

  /** The email, trimmed and lower-cased, must pass `isEmail`; a non-string never does. */
  function Validate(email: JsValue, isEmail: string -> bool): (r: Option<ForgotPasswordDto>)
    ensures r.Some? ==> JsString.IsTrimmed(r.value.email) && JsString.IsLower(r.value.email) && isEmail(r.value.email)
    ensures email.Other? ==> r.None?
    ensures email.Str? ==> (r.Some? <==> isEmail(JsString.ToLower(JsString.Trim(email.s))))
  {
    var e := EmailTransform(email);
    if e.Str? && isEmail(e.s) then Some(ForgotPasswordDto(e.s)) else None
  }

  /**
   * An address re-spelt with white space around it and its ASCII letters in
   * another case reaches the service as the same email.
   */
  lemma SpellingsAgree(a: string, b: string, pre: string, post: string, isEmail: string -> bool)
    requires JsString.IsTrimmed(a)
    requires forall k :: 0 <= k < |pre| ==> JsString.IsWhiteSpace(pre[k])
    requires forall k :: 0 <= k < |post| ==> JsString.IsWhiteSpace(post[k])
    requires |b| == |a| && forall i :: 0 <= i < |a| ==> JsString.LowerChar(b[i]) == JsString.LowerChar(a[i])
    ensures Validate(Str(pre + b + post), isEmail) == Validate(Str(a), isEmail)
  {
    assert JsString.IsTrimmed(b) by {
      if b != [] {
        assert JsString.LowerChar(b[0]) == JsString.LowerChar(a[0]);
        assert JsString.LowerChar(b[|b| - 1]) == JsString.LowerChar(a[|a| - 1]);
      }
    }
    JsString.TrimSurrounded(pre, b, post);
    JsString.TrimOfTrimmed(a);
    assert JsString.ToLower(b) == JsString.ToLower(a);
  }

  /** A validated email validates again to itself. */
  lemma ValidatedIsFixedPoint(email: JsValue, isEmail: string -> bool)
    requires Validate(email, isEmail).Some?
    ensures Validate(Str(Validate(email, isEmail).value.email), isEmail) == Validate(email, isEmail)
  {
    EmailTransformIdempotent(email);
  }
}
