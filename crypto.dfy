/**
 * The cryptographic primitives the authentication core calls: bcrypt, SHA-256,
 * random bytes and JWT signing. They are foreign library code, so the model
 * takes them as function values with one assumption, `Sound`: a password
 * verifies against any bcrypt hash made from it. Random bytes, salts and the
 * clock are method parameters wherever they are used.
 */
module Crypto {
  import opened Uri
  import JsString

  /** The claims of an access token: `{email, sub, role}`, `sub` being the subject (section 4.1.2 of RFC 7519). */
  datatype Claims = Claims(email: string, sub: nat, role: string)

  datatype Primitives = Primitives(
    bcryptHash: (string, string) -> string,   // (password, salt) to stored hash
    bcryptCompare: (string, string) -> bool,  // (password, stored hash) to match
    sha256: string -> seq<Byte>,              // digest of the UTF-8 text
    jwtSign: Claims -> string)                // signed compact token

  ghost predicate Sound(p: Primitives) {
    forall password, salt :: p.bcryptCompare(password, p.bcryptHash(password, salt))
  }

  predicate IsLowerHexDigit(c: char) {
    ('0' <= c <= '9') || ('a' <= c <= 'f')
  }

  function LowerHexDigit(n: int): (c: char)
    requires 0 <= n < 16
    ensures IsLowerHexDigit(c)
  {
    if n < 10 then (48 + n) as char else (87 + n) as char
  }

  /** `Buffer.toString('hex')`: two lower-case hexadecimal digits per byte. */
  function Hex(bs: seq<Byte>): (r: string)
    ensures |r| == 2 * |bs|
  {
    if bs == [] then [] else [LowerHexDigit(bs[0] / 16), LowerHexDigit(bs[0] % 16)] + Hex(bs[1..])
  }

  /** Every character of hex text is a lower-case hexadecimal digit. */
  lemma {:induction false} HexDigits(bs: seq<Byte>)
    ensures forall i :: 0 <= i < |Hex(bs)| ==> IsLowerHexDigit(Hex(bs)[i])
  {
    if bs != [] {
      HexDigits(bs[1..]);
      var h := Hex(bs);
      assert h == [LowerHexDigit(bs[0] / 16), LowerHexDigit(bs[0] % 16)] + Hex(bs[1..]);
      forall i | 0 <= i < |h|
        ensures IsLowerHexDigit(h[i])
      {
        if i >= 2 {
          assert h[i] == Hex(bs[1..])[i - 2];
        }
      }
    }
  }

  /** A hex digit is not white space. */
  lemma HexDigitNotWhiteSpace(c: char)
    requires IsLowerHexDigit(c)
    ensures !JsString.IsWhiteSpace(c)
  {
  }

  /** Hex text has no white space, so `trim` leaves it alone. */
  lemma HexIsTrimmed(bs: seq<Byte>)
    ensures JsString.Trim(Hex(bs)) == Hex(bs)
  {
    var h := Hex(bs);
    HexDigits(bs);
    if h != [] {
      HexDigitNotWhiteSpace(h[0]);
      HexDigitNotWhiteSpace(h[|h| - 1]);
    }
    assert JsString.IsTrimmed(h);
    JsString.TrimOfTrimmed(h);
  }
}
