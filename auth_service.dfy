/**
 * The authentication service: credential check, registration, access tokens,
 * social sign-in and the password-reset ticket. The store is a `UserDirectory`,
 * outgoing mail an outbox, and bcrypt, SHA-256 and JWT signing the
 * `Primitives` of the `Crypto` module. Salts, random bytes and the clock are
 * parameters.
 */
module AuthService {
  import opened Wrappers
  import opened UserSchema
  import opened UsersService
  import opened Crypto
  import opened Uri
  import JsString

  /** The errors the service throws. */
  datatype AuthError =
    | MissingPasswordHash        // bcrypt.compare rejects an undefined hash argument
    | Unauthorized(message: string)
    | BadRequest(message: string)
    | Store(error: StoreError)
    | MailNotSent                // the SMTP transport's error, rethrown

  const UserExistsMessage := "User already exists"
  const InvalidResetTokenMessage := "Invalid or expired reset token."
  const UnknownEmailMessage := "If that email exists, a reset code has been sent."
  const ResetSentMessage := "Reset code sent to your email."
  const ResetDoneMessage := "Password reset successfully."

  /** Fifteen minutes, in milliseconds. */
  const ResetWindowMs := 15 * 60 * 1000

  /** The number of random bytes in a reset token. */
  const ResetTokenBytes := 16

  /** `const { passwordHash, ...result } = user.toObject()`: the record without its hash, every other field kept. */
  function StripPasswordHash(a: Account): (r: Account)
    ensures r.passwordHash.None?
    ensures r.(passwordHash := a.passwordHash) == a
  {
    a.(passwordHash := None)
  }

  /**
   * `validateUser`: the account with that email, stripped of its hash, when the
   * password verifies against the stored hash; `Ok(None)` both when no account
   * has that email and when the password is wrong; an error when the account
   * has no hash at all.
   */
  function ValidateUser(p: Primitives, s: seq<Account>, email: string, pass: string): (r: Result<Option<Account>, AuthError>)
    ensures r.Ok? && r.value.Some? ==>
      exists i :: 0 <= i < |s| && s[i].email == email && s[i].passwordHash.Some?
        && p.bcryptCompare(pass, s[i].passwordHash.value) && r.value.value == StripPasswordHash(s[i])
    ensures r.Err? ==> r.error == MissingPasswordHash && exists i :: 0 <= i < |s| && s[i].email == email && s[i].passwordHash.None?
    ensures EmailsUnique(s) ==>
      (r == Ok(None) <==>
        forall i :: 0 <= i < |s| && s[i].email == email ==>
          s[i].passwordHash.Some? && !p.bcryptCompare(pass, s[i].passwordHash.value))
  {
    match FindOne(s, ByEmail(email))
    case None => Ok(None)
    case Some(i) =>
      if s[i].passwordHash.None? then Err(MissingPasswordHash)
      else if p.bcryptCompare(pass, s[i].passwordHash.value) then Ok(Some(StripPasswordHash(s[i])))
      else Ok(None)
  }

  /** The body `login` returns: the token and the user object it was given. */
  datatype LoginResult = LoginResult(accessToken: string, user: Account)

  /** The token payload `{email, sub: _id, role}` of an account. */
  function ClaimsOf(a: Account): Claims {
    Claims(a.email, a.id, a.role)
  }

  /** `login`: a token signed over the account's email, id and role, returned with the same user object. */
  function Login(p: Primitives, a: Account): (r: LoginResult)
    ensures r.user == a
    ensures r.accessToken == p.jwtSign(Claims(a.email, a.id, a.role))
  {
    LoginResult(p.jwtSign(ClaimsOf(a)), a)
  }

  /** `buildToken`: only the signed token, over the same claims. */
  function BuildToken(p: Primitives, a: Account): (token: string)
    ensures token == Login(p, a).accessToken
  {
    p.jwtSign(ClaimsOf(a))
  }

  /** The token depends on email, id and role alone: stripping the hash, or any other field, leaves it unchanged. */
  lemma TokenDependsOnClaimsOnly(p: Primitives, a: Account, b: Account)
    requires a.email == b.email && a.id == b.id && a.role == b.role
    ensures Login(p, a).accessToken == Login(p, b).accessToken
    ensures Login(p, StripPasswordHash(a)).accessToken == Login(p, a).accessToken
  {
  }

  /** The request body `register` reads; a missing name is None. */
  datatype RegisterBody = RegisterBody(email: string, password: string, firstName: Option<string>, lastName: Option<string>)

  /** The fields `register` hands to `create`: role forced to 'user', missing names as '', the bcrypt hash in place of the password. */
  function LocalUser(b: RegisterBody, passwordHash: string): NewUser {
    NewUser(b.email, Some(passwordHash), b.firstName.GetOr(""), b.lastName.GetOr(""), Some(DefaultRole), None, None, None)
  }

  /** A registered account: role 'user', the given or empty names, the hash stored, no identity and no ticket. */
  lemma RegisteredAccount(id: nat, b: RegisterBody, p: Primitives, salt: string)
    ensures var a := WithDefaults(id, LocalUser(b, p.bcryptHash(b.password, salt)));
      && a.email == b.email
      && a.role == "user"
      && a.passwordHash == Some(p.bcryptHash(b.password, salt))
      && (b.firstName.None? ==> a.firstName == "") && (b.firstName.Some? ==> a.firstName == b.firstName.value)
      && (b.lastName.None? ==> a.lastName == "") && (b.lastName.Some? ==> a.lastName == b.lastName.value)
      && a.provider.None? && a.resetTokenHash.None? && MeetsDeclaredSchema(a) == (b.email != "" && p.bcryptHash(b.password, salt) != "")
  {
  }

  /** After registering, logging in with the same email and password yields the new account without its hash. */
  lemma RegisterThenValidate(p: Primitives, s: seq<Account>, nextId: nat, b: RegisterBody, salt: string)
    requires Sound(p)
    requires forall j :: 0 <= j < |s| ==> s[j].email != b.email
    ensures var a := WithDefaults(nextId, LocalUser(b, p.bcryptHash(b.password, salt)));
      ValidateUser(p, s + [a], b.email, b.password) == Ok(Some(StripPasswordHash(a)))
  {
    var a := WithDefaults(nextId, LocalUser(b, p.bcryptHash(b.password, salt)));
    FindOneFirst(s + [a], ByEmail(b.email), |s|);
    assert p.bcryptCompare(b.password, p.bcryptHash(b.password, salt));
  }

  /** `profile.name` of a passport profile. */
  datatype ProfileName = ProfileName(givenName: Option<string>, familyName: Option<string>)

  /** The passport profile fields `socialLogin` reads; an email or photo entry may lack its `value`. */
  datatype SocialProfile = SocialProfile(
    id: Option<string>,
    emails: seq<Option<string>>,
    name: Option<ProfileName>,
    displayName: Option<string>,
    photos: seq<Option<string>>)

  /** `list?.[0]?.value ?? ''`: the first entry's value, or '' when the list is empty or the entry has none. */
  function FirstValue(list: seq<Option<string>>): (r: string)
    ensures list == [] ==> r == ""
    ensures list != [] && list[0].Some? ==> r == list[0].value
    ensures list != [] && list[0].None? ==> r == ""
  {
    if list == [] then "" else list[0].GetOr("")
  }

  /** The profile has no structured given name. */
  predicate NoGivenName(p: SocialProfile) {
    p.name.None? || p.name.value.givenName.None?
  }

  /** The profile has no structured family name. */
  predicate NoFamilyName(p: SocialProfile) {
    p.name.None? || p.name.value.familyName.None?
  }

  /**
   * `profile.name?.givenName ?? profile.displayName?.split(' ')[0] ?? ''`: the
   * given name when there is one, else the display name up to its first space,
   * else ''.
   */
  function FirstName(p: SocialProfile): (r: string)
    ensures !NoGivenName(p) ==> r == p.name.value.givenName.value
    ensures NoGivenName(p) && p.displayName.None? ==> r == ""
    ensures NoGivenName(p) && p.displayName.Some? ==>
      var dn := p.displayName.value;
      && |r| <= |dn| && r == dn[..|r|]
      && (forall i :: 0 <= i < |r| ==> r[i] != ' ')
      && (|r| == |dn| || dn[|r|] == ' ')
  {
    if p.name.Some? && p.name.value.givenName.Some? then p.name.value.givenName.value
    else if p.displayName.Some? then
      JsString.SplitFirstPart(p.displayName.value, ' ');
      JsString.Split(p.displayName.value, ' ')[0]
    else ""
  }

  /**
   * `profile.name?.familyName ?? profile.displayName?.split(' ').slice(1).join(' ') ?? ''`:
   * the family name when there is one, else what follows the display name's
   * first space ('' when it has none), else ''.
   */
  function LastName(p: SocialProfile): (r: string)
    ensures !NoFamilyName(p) ==> r == p.name.value.familyName.value
    ensures NoFamilyName(p) && p.displayName.None? ==> r == ""
    ensures NoFamilyName(p) && p.displayName.Some? ==>
      var dn := p.displayName.value;
      || (r == [] && forall i :: 0 <= i < |dn| ==> dn[i] != ' ')
      || (&& |r| < |dn| && r == dn[|dn| - |r|..] && dn[|dn| - |r| - 1] == ' '
          && forall i :: 0 <= i < |dn| - |r| - 1 ==> dn[i] != ' ')
  {
    if p.name.Some? && p.name.value.familyName.Some? then p.name.value.familyName.value
    else if p.displayName.Some? then
      var dn := p.displayName.value;
      JsString.SplitFirstPart(dn, ' ');
      var first := JsString.Split(dn, ' ')[0];
      assert forall i :: 0 <= i < |first| ==> dn[i] == first[i];
      JsString.Join(JsString.Split(dn, ' ')[1..], ' ')
    else ""
  }

  /**
   * Without a structured given or family name, the display name is split at
   * its first space: the first name is the text before it and the last name
   * the text after it (the whole name and '' when it has no space).
   */
  lemma NamesFromDisplayName(p: SocialProfile)
    ensures NoGivenName(p) && NoFamilyName(p) && p.displayName.Some? ==>
      var dn := p.displayName.value;
      && ' ' !in FirstName(p)
      && (' ' in dn ==> dn == FirstName(p) + " " + LastName(p))
      && (' ' !in dn ==> FirstName(p) == dn && LastName(p) == "")
  {
    if NoGivenName(p) && NoFamilyName(p) && p.displayName.Some? {
      var dn := p.displayName.value;
      var first := JsString.Split(dn, ' ')[0];
      JsString.SplitFirstPart(dn, ' ');
      assert FirstName(p) == first;
      if ' ' in dn {
        assert dn == first + " " + dn[|first| + 1..];
      }
    }
  }

  /**
   * The data `socialLogin` hands to `findOrCreateSocial`: the provider and
   * profile id as the identity, the first e-mail and first photo ('' when
   * missing), and the names taken from the structured name, else from the
   * display name, else ''.
   */
  function SocialDataOf(provider: string, p: SocialProfile): (d: SocialData)
    ensures d.provider == provider && d.providerId == p.id
    ensures d.email == (if p.emails == [] then "" else p.emails[0].GetOr(""))
    ensures d.firstName == FirstName(p) && d.lastName == LastName(p)
    ensures d.avatarUrl == Some(if p.photos == [] then "" else p.photos[0].GetOr(""))
    ensures !NoGivenName(p) ==> d.firstName == p.name.value.givenName.value
    ensures !NoFamilyName(p) ==> d.lastName == p.name.value.familyName.value
    ensures NoGivenName(p) && p.displayName.None? ==> d.firstName == ""
    ensures NoFamilyName(p) && p.displayName.None? ==> d.lastName == ""
    ensures NoGivenName(p) && NoFamilyName(p) && p.displayName.Some? ==>
      var dn := p.displayName.value;
      && ' ' !in d.firstName
      && (' ' in dn ==> dn == d.firstName + " " + d.lastName)
      && (' ' !in dn ==> d.firstName == dn && d.lastName == "")
  {
    NamesFromDisplayName(p);
    SocialData(provider, p.id, FirstValue(p.emails), FirstName(p), LastName(p), Some(FirstValue(p.photos)))
  }

  /** One password-reset mail: the recipient and the raw token it carries. */
  datatype Mail = Mail(to: string, token: string)

  /** The mail transport, as the list of mails it has accepted. */
  class Mailer {
    var outbox: seq<Mail>

    constructor ()
      ensures outbox == []
    {
      outbox := [];
    }

    /** `sendPasswordReset`: `delivered` is the transport's outcome; a failure is reported and nothing is queued. */
    method SendPasswordReset(to: string, token: string, delivered: bool) returns (ok: bool)
      modifies this
      ensures ok == delivered
      ensures outbox == old(outbox) + (if delivered then [Mail(to, token)] else [])
    {
      ok := delivered;
      if delivered {
        outbox := outbox + [Mail(to, token)];
      }
    }
  }

  /** `createHash('sha256').update(token).digest('hex')`: the hash stored for, and looked up from, a raw reset token. */
  function TicketHash(p: Primitives, token: string): string {
    Hex(p.sha256(token))
  }

  /** A ticket hash is hex text, so the trim in `findByResetToken` leaves it alone. */
  lemma TicketHashIsTrimmed(p: Primitives, token: string)
    ensures JsString.Trim(TicketHash(p, token)) == TicketHash(p, token)
  {
    HexIsTrimmed(p.sha256(token));
  }

  /** A reset token: 16 random bytes as 32 lower-case hex digits, with no surrounding white space. */
  lemma ResetTokenShape(random: seq<Byte>)
    requires |random| == ResetTokenBytes
    ensures |Hex(random)| == 32
    ensures JsString.Trim(Hex(random)) == Hex(random)
  {
    HexIsTrimmed(random);
  }

  /**
   * The reset lifecycle on the store. After `forgotPassword` at `now` for an
   * existing email, the mailed token (padded with white space or not) finds
   * that account at any `later` time inside the 15-minute window; once
   * `resetPassword` has used it, the same token finds nothing at any time after.
   */
  lemma ForgotThenReset(p: Primitives, s: seq<Account>, nextId: nat, i: nat, email: string, random: seq<Byte>,
                        now: int, expiry: int, later: int, again: int, token: string, newHash: string)
    requires Consistent(s, nextId)
    requires FindOne(s, ByEmail(email)) == Some(i)
    requires expiry == now + ResetWindowMs
    requires JsString.Trim(token) == Hex(random)
    requires now <= later < expiry && later <= again
    requires forall j :: 0 <= j < |s| && s[j].email != email ==>
      !Matches(ByLiveResetToken(TicketHash(p, Hex(random)), later), s[j])
    ensures TicketHash(p, JsString.Trim(token)) == TicketHash(p, Hex(random))
    ensures FindOne(WithResetTicket(s, email, TicketHash(p, Hex(random)), expiry),
                    ByLiveResetToken(TicketHash(p, Hex(random)), later)) == Some(i)
    ensures FindOne(WithPasswordReset(WithResetTicket(s, email, TicketHash(p, Hex(random)), expiry), s[i].id, newHash),
                    ByLiveResetToken(TicketHash(p, Hex(random)), again)).None?
  {
    IssueThenConsume(s, nextId, i, email, TicketHash(p, Hex(random)), expiry, later, again, newHash);
  }

  /** The authentication service over one user directory and one mail transport. */
  class Authenticator {
    const users: UserDirectory
    const mailer: Mailer
    const crypto: Primitives

    /** The directory is consistent and no two accounts share a social identity. */
    ghost predicate Valid()
      reads users
    {
      users.Valid() && IdentitiesUnique(users.accounts)
    }

    constructor (users: UserDirectory, mailer: Mailer, crypto: Primitives)
      requires users.Valid() && IdentitiesUnique(users.accounts)
      ensures this.users == users && this.mailer == mailer && this.crypto == crypto
      ensures Valid()
    {
      this.users := users;
      this.mailer := mailer;
      this.crypto := crypto;
    }

    /**
     * `register`: an email already stored fails with 'User already exists' and
     * changes nothing; otherwise the account is created and logged in, and the
     * response carries the created record, hash included.
     */
    method Register(b: RegisterBody, salt: string) returns (r: Result<LoginResult, AuthError>)
      requires Valid()
      modifies users
      ensures Valid()
      ensures FindOne(old(users.accounts), ByEmail(b.email)).Some? ==>
        r == Err(Unauthorized(UserExistsMessage)) && users.accounts == old(users.accounts) && users.nextId == old(users.nextId)
      ensures FindOne(old(users.accounts), ByEmail(b.email)).None? ==>
        var a := WithDefaults(old(users.nextId), LocalUser(b, crypto.bcryptHash(b.password, salt)));
        && users.accounts == old(users.accounts) + [a]
        && users.nextId == old(users.nextId) + 1
        && r == Ok(Login(crypto, a))
    {
      if users.FindOneByEmail(b.email).Some? {
        return Err(Unauthorized(UserExistsMessage));
      }
      var hash := crypto.bcryptHash(b.password, salt);
      InsertKeepsInvariants(users.accounts, users.nextId, LocalUser(b, hash));
      var created := users.Create(LocalUser(b, hash));
      match created
      case Err(e) =>
        r := Err(Store(e));
      case Ok(a) =>
        r := Ok(Login(crypto, a));
    }

    /** `socialLogin`: find, link or create the account for the profile, then sign its token. */
    method SocialLogin(provider: string, profile: SocialProfile) returns (r: Result<string, AuthError>)
      requires Valid()
      modifies users
      ensures Valid()
      ensures var u := SocialUpsert(old(users.accounts), old(users.nextId), SocialDataOf(provider, profile));
        && users.accounts == u.accounts
        && users.nextId == u.nextId
        && (u.result.Ok? ==> r == Ok(BuildToken(crypto, u.result.value)))
        && (u.result.Err? ==> r == Err(Store(u.result.error)))
    {
      SocialUpsertKeepsInvariants(users.accounts, users.nextId, SocialDataOf(provider, profile));
      var found := users.FindOrCreateSocial(SocialDataOf(provider, profile));
      match found
      case Err(e) =>
        r := Err(Store(e));
      case Ok(a) =>
        r := Ok(BuildToken(crypto, a));
    }

    /**
     * `forgotPassword`: an unknown email changes nothing and sends nothing; a
     * known one gets the hash of a fresh 32-digit token with a 15-minute expiry,
     * and the raw token is mailed. A mail failure is rethrown after the ticket is stored.
     */
    method ForgotPassword(email: string, random: seq<Byte>, now: int, delivered: bool) returns (r: Result<string, AuthError>)
      requires Valid()
      requires |random| == ResetTokenBytes
      modifies users, mailer
      ensures Valid()
      ensures users.nextId == old(users.nextId)
      ensures FindOne(old(users.accounts), ByEmail(email)).None? ==>
        && r == Ok(UnknownEmailMessage)
        && users.accounts == old(users.accounts)
        && mailer.outbox == old(mailer.outbox)
      ensures FindOne(old(users.accounts), ByEmail(email)).Some? ==>
        && users.accounts == WithResetTicket(old(users.accounts), email, TicketHash(crypto, Hex(random)), now + ResetWindowMs)
        && mailer.outbox == old(mailer.outbox) + (if delivered then [Mail(email, Hex(random))] else [])
        && r == (if delivered then Ok(ResetSentMessage) else Err(MailNotSent))
    {
      if users.FindOneByEmail(email).None? {
        return Ok(UnknownEmailMessage);
      }
      var token := Hex(random);
      var tokenHash := TicketHash(crypto, token);
      var expiry := now + ResetWindowMs;
      ResetTicketKeepsInvariants(users.accounts, users.nextId, email, tokenHash, expiry);
      users.SetResetToken(email, tokenHash, expiry);
      var sent := mailer.SendPasswordReset(email, token, delivered);
      if sent {
        r := Ok(ResetSentMessage);
      } else {
        r := Err(MailNotSent);
      }
    }

    /**
     * `resetPassword`: hash the trimmed token; with no live ticket for it, fail
     * with 'Invalid or expired reset token.'; otherwise store the new password
     * hash on that account and clear its ticket.
     */
    method ResetPassword(token: string, newPassword: string, salt: string, now: int) returns (r: Result<string, AuthError>)
      requires Valid()
      modifies users
      ensures Valid()
      ensures users.nextId == old(users.nextId)
      ensures var found := FindOne(old(users.accounts), ByLiveResetToken(TicketHash(crypto, JsString.Trim(token)), now));
        && (found.None? ==> r == Err(BadRequest(InvalidResetTokenMessage)) && users.accounts == old(users.accounts))
        && (found.Some? ==>
              && r == Ok(ResetDoneMessage)
              && users.accounts == WithPasswordReset(old(users.accounts), old(users.accounts)[found.value].id,
                                                     crypto.bcryptHash(newPassword, salt)))
    {
      var tokenHash := TicketHash(crypto, JsString.Trim(token));
      TicketHashIsTrimmed(crypto, JsString.Trim(token));
      var user := users.FindByResetToken(tokenHash, now);
      if user.None? {
        return Err(BadRequest(InvalidResetTokenMessage));
      }
      var hash := crypto.bcryptHash(newPassword, salt);
      PasswordResetKeepsInvariants(users.accounts, users.nextId, user.value.id, hash);
      users.UpdatePasswordAndClearToken(user.value.id, hash);
      r := Ok(ResetDoneMessage);
    }
  }
}
