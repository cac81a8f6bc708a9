/**
 * What the request DTOs share: the JSON value a body field may hold, the
 * class-transformer transforms that trim (and lower-case) a string and pass
 * anything else through, and the length rule of class-validator's `MinLength`.
 */
module DtoCommon {
  import JsString

  /** A body field: a string, or any other JSON value (missing, null, number, boolean, array, object). */
  datatype JsValue = Str(s: string) | Other(tag: string)

  /** `typeof value === 'string' ? value.trim() : value`. */
  function TrimTransform(v: JsValue): (r: JsValue)
    ensures v.Other? ==> r == v
    ensures v.Str? ==> r.Str? && JsString.IsTrimmed(r.s) && |r.s| <= |v.s|
  {
    if v.Str? then Str(JsString.Trim(v.s)) else v
  }

  /** `typeof value === 'string' ? value.trim().toLowerCase() : value`. */
  function EmailTransform(v: JsValue): (r: JsValue)
    ensures v.Other? ==> r == v
    ensures v.Str? ==> r.Str? && JsString.IsTrimmed(r.s) && JsString.IsLower(r.s)
  {
    if v.Str? then
      var t := JsString.Trim(v.s);
      JsString.ToLowerKeepsTrimmed(t);
      JsString.ToLowerIsLower(t);
      Str(JsString.ToLower(t))
    else v
  }

  /** Transforming an already transformed email changes nothing. */
  lemma EmailTransformIdempotent(v: JsValue)
    ensures EmailTransform(EmailTransform(v)) == EmailTransform(v)
  {
    if v.Str? {
      var t := EmailTransform(v).s;
      JsString.TrimOfTrimmed(t);
      JsString.ToLowerOfLower(t);
    }
  }

  /** Trimming an already trimmed value changes nothing. */
  lemma TrimTransformIdempotent(v: JsValue)
    ensures TrimTransform(TrimTransform(v)) == TrimTransform(v)
  {
    if v.Str? {
      JsString.TrimIdempotent(v.s);
    }
  }

  /** The variation selectors U+FE0E and U+FE0F, which validator.js leaves out of a length. */
  predicate IsVariationSelector(c: char) {
    c == '\U{FE0E}' || c == '\U{FE0F}'
  }

  /** validator.js `isLength`: the number of code points that are not variation selectors. */
  function ValidatorLength(s: string): (n: nat)
    ensures n <= |s|
    ensures (forall i :: 0 <= i < |s| ==> !IsVariationSelector(s[i])) ==> n == |s|
  {
    if s == [] then 0 else (if IsVariationSelector(s[0]) then 0 else 1) + ValidatorLength(s[1..])
  }

  /** `@IsString() @MinLength(min)`. */
  predicate IsStringOfMinLength(v: JsValue, min: nat) {
    v.Str? && ValidatorLength(v.s) >= min
  }
}
