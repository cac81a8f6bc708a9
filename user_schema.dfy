/**
 * The account record. `Account` holds every field the users service writes;
 * the declared schema is narrower (it names only email, passwordHash, profile,
 * role, savedPlaces and karma, and makes passwordHash required), and
 * `MeetsDeclaredSchema` states what that declaration demands.
 */
module UserSchema {
  import opened Wrappers

  datatype Profile = Profile(name: Option<string>, avatarUrl: Option<string>, bio: Option<string>)

  const EmptyProfile := Profile(None, None, None)
  const DefaultRole := "user"

  /**
   * A stored account. `provider` and `providerId` are None when the field is
   * missing or null; the reset fields are None when cleared.
   */
  datatype Account = Account(
    id: nat,
    email: string,
    passwordHash: Option<string>,
    firstName: string,
    lastName: string,
    role: string,
    provider: Option<string>,
    providerId: Option<string>,
    profile: Profile,
    savedPlaces: seq<string>,
    karma: int,
    resetTokenHash: Option<string>,
    resetTokenExpiry: Option<int>)

  /** The fields a caller hands to `create`; None means the caller did not supply the field. */
  datatype NewUser = NewUser(
    email: string,
    passwordHash: Option<string>,
    firstName: string,
    lastName: string,
    role: Option<string>,
    provider: Option<string>,
    providerId: Option<string>,
    profile: Option<Profile>)

  /**
   * The document a new model instance becomes: supplied fields are kept and the
   * declared defaults fill the rest (role 'user', profile {}, savedPlaces [], karma 0).
   */
  function WithDefaults(id: nat, n: NewUser): (a: Account)
    ensures a.id == id && a.email == n.email && a.passwordHash == n.passwordHash
    ensures a.firstName == n.firstName && a.lastName == n.lastName
    ensures a.provider == n.provider && a.providerId == n.providerId
    ensures n.role.None? ==> a.role == DefaultRole
    ensures n.role.Some? ==> a.role == n.role.value
    ensures n.profile.None? ==> a.profile == EmptyProfile
    ensures n.profile.Some? ==> a.profile == n.profile.value
    ensures a.savedPlaces == [] && a.karma == 0
    ensures a.resetTokenHash.None? && a.resetTokenExpiry.None?
  {
    Account(id, n.email, n.passwordHash, n.firstName, n.lastName, n.role.GetOr(DefaultRole),
            n.provider, n.providerId, n.profile.GetOr(EmptyProfile), [], 0, None, None)
  }

  /** A Mongoose `required` string must be present and non-empty. */
  predicate RequiredString(s: Option<string>) {
    s.Some? && s.value != ""
  }

  /** What the declared schema demands of one document: a non-empty email and a non-empty passwordHash. */
  predicate MeetsDeclaredSchema(a: Account) {
    RequiredString(Some(a.email)) && RequiredString(a.passwordHash)
  }

  /** A record created without a password hash (as social sign-up does) breaks the declared schema. */
  lemma NoHashBreaksDeclaredSchema(id: nat, n: NewUser)
    requires n.passwordHash.None?
    ensures !MeetsDeclaredSchema(WithDefaults(id, n))
  {
  }
}
