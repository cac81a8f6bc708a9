/**
 * The user directory: the account collection and the queries and updates the
 * authentication core makes on it. `findOne` returns the first matching
 * document in insertion order; the unique index on `email` rejects a second
 * document with an email already stored.
 */
module UsersService {
  import opened Wrappers
  import opened UserSchema
  import JsString

  /** The query filters the service builds. */
  datatype Filter =
    | ByEmail(email: string)
    | ById(id: nat)
    | ByIdentity(provider: string, providerId: Option<string>)
    | ByLiveResetToken(hash: string, now: int)

  /**
   * Whether a document satisfies a filter. A `providerId` of None in a filter
   * stands for `undefined`, which the driver sends as null and which matches a
   * missing or null field. A reset ticket is live while its expiry is strictly
   * after `now`; a cleared field matches no string.
   */
  predicate Matches(f: Filter, a: Account) {
    match f
    case ByEmail(email) => a.email == email
    case ById(id) => a.id == id
    case ByIdentity(provider, providerId) => a.provider == Some(provider) && a.providerId == providerId
    case ByLiveResetToken(hash, now) =>
      a.resetTokenHash == Some(hash) && a.resetTokenExpiry.Some? && a.resetTokenExpiry.value > now
  }

  /** `findOne(filter)`: the position of the first matching document, None when no document matches. */
  function FindOne(s: seq<Account>, f: Filter): (r: Option<nat>)
    ensures r.Some? ==> r.value < |s| && Matches(f, s[r.value])
    ensures r.Some? ==> forall j :: 0 <= j < r.value ==> !Matches(f, s[j])
    ensures r.None? ==> forall j :: 0 <= j < |s| ==> !Matches(f, s[j])
  {
    if s == [] then None
    else if Matches(f, s[0]) then Some(0)
    else match FindOne(s[1..], f)
      case None => None
      case Some(i) => Some(i + 1)
  }

  /** The duplicate-key error (E11000) the unique email index raises. */
  datatype StoreError = DuplicateEmail(email: string)

  predicate EmailsUnique(s: seq<Account>) {
    forall i, j :: 0 <= i < j < |s| ==> s[i].email != s[j].email
  }

  predicate IdsFresh(s: seq<Account>, nextId: nat) {
    && (forall i :: 0 <= i < |s| ==> s[i].id < nextId)
    && (forall i, j :: 0 <= i < j < |s| ==> s[i].id != s[j].id)
  }

  /** A reset hash is never stored without its expiry, nor an expiry without its hash. */
  predicate TicketsPaired(s: seq<Account>) {
    forall i :: 0 <= i < |s| ==> (s[i].resetTokenHash.Some? <==> s[i].resetTokenExpiry.Some?)
  }

  /** At most one account carries a given (provider, providerId) pair. */
  predicate IdentitiesUnique(s: seq<Account>) {
    forall i, j :: 0 <= i < j < |s| && s[i].provider.Some? ==>
      s[i].provider != s[j].provider || s[i].providerId != s[j].providerId
  }

  /** What the store itself keeps: unique emails, unique ids below the next one, paired reset fields. */
  predicate Consistent(s: seq<Account>, nextId: nat) {
    EmailsUnique(s) && IdsFresh(s, nextId) && TicketsPaired(s)
  }

  /** Inserting a document: refused by the unique index when the email is taken, else appended with its defaults. */
  function Insert(s: seq<Account>, nextId: nat, n: NewUser): (r: Result<seq<Account>, StoreError>)
    ensures r.Err? <==> exists j :: 0 <= j < |s| && s[j].email == n.email
    ensures r.Err? ==> r.error == DuplicateEmail(n.email)
    ensures r.Ok? ==> r.value == s + [WithDefaults(nextId, n)]
  {
    if FindOne(s, ByEmail(n.email)).Some? then Err(DuplicateEmail(n.email))
    else Ok(s + [WithDefaults(nextId, n)])
  }

  /** Inserting keeps the store consistent and, for a new identity, keeps identities unique. */
  lemma InsertKeepsInvariants(s: seq<Account>, nextId: nat, n: NewUser)
    requires Consistent(s, nextId)
    requires Insert(s, nextId, n).Ok?
    ensures Consistent(Insert(s, nextId, n).value, nextId + 1)
    ensures IdentitiesUnique(s) && (n.provider.Some? ==> FindOne(s, ByIdentity(n.provider.value, n.providerId)).None?) ==>
      IdentitiesUnique(Insert(s, nextId, n).value)
  {
    var r := Insert(s, nextId, n).value;
    var a := WithDefaults(nextId, n);
    assert r == s + [a];
    if IdentitiesUnique(s) && (n.provider.Some? ==> FindOne(s, ByIdentity(n.provider.value, n.providerId)).None?) {
    forall i, j | 0 <= i < j < |r| && r[i].provider.Some?
      ensures r[i].provider != r[j].provider || r[i].providerId != r[j].providerId
    {
      if j == |s| {
        assert !Matches(ByIdentity(r[i].provider.value, r[i].providerId), r[j]) by {
          if r[i].provider == r[j].provider {
            assert n.provider.Some?;
            assert !Matches(ByIdentity(n.provider.value, n.providerId), s[i]);
          }
        }
      }
    }
    }
  }

  /**
   * `findOneAndUpdate({email}, {resetTokenHash, resetTokenExpiry})`: the first account
   * with that email gets both fields; every other account is left as it was.
   */
  function WithResetTicket(s: seq<Account>, email: string, hash: string, expiry: int): (r: seq<Account>)
    ensures |r| == |s|
    ensures forall j :: 0 <= j < |s| && Some(j) != FindOne(s, ByEmail(email)) ==> r[j] == s[j]
    ensures FindOne(s, ByEmail(email)).Some? ==>
      var i := FindOne(s, ByEmail(email)).value;
      r[i] == s[i].(resetTokenHash := Some(hash), resetTokenExpiry := Some(expiry))
  {
    match FindOne(s, ByEmail(email))
    case None => s
    case Some(i) => s[i := s[i].(resetTokenHash := Some(hash), resetTokenExpiry := Some(expiry))]
  }

  /**
   * `findByIdAndUpdate(id, {passwordHash, resetTokenHash: null, resetTokenExpiry: null})`:
   * the account with that id gets the new hash and loses its reset ticket.
   */
  function WithPasswordReset(s: seq<Account>, id: nat, passwordHash: string): (r: seq<Account>)
    ensures |r| == |s|
    ensures forall j :: 0 <= j < |s| && Some(j) != FindOne(s, ById(id)) ==> r[j] == s[j]
    ensures FindOne(s, ById(id)).Some? ==>
      var i := FindOne(s, ById(id)).value;
      r[i] == s[i].(passwordHash := Some(passwordHash), resetTokenHash := None, resetTokenExpiry := None)
  {
    match FindOne(s, ById(id))
    case None => s
    case Some(i) => s[i := s[i].(passwordHash := Some(passwordHash), resetTokenHash := None, resetTokenExpiry := None)]
  }

  /** Setting a ticket sets hash and expiry together, so the store stays consistent. */
  lemma ResetTicketKeepsInvariants(s: seq<Account>, nextId: nat, email: string, hash: string, expiry: int)
    requires Consistent(s, nextId)
    ensures Consistent(WithResetTicket(s, email, hash, expiry), nextId)
    ensures IdentitiesUnique(s) ==> IdentitiesUnique(WithResetTicket(s, email, hash, expiry))
  {
    var r := WithResetTicket(s, email, hash, expiry);
    assert forall j :: 0 <= j < |s| ==> (r[j].email == s[j].email && r[j].id == s[j].id
      && r[j].provider == s[j].provider && r[j].providerId == s[j].providerId);
  }

  /** A password reset clears hash and expiry together, so the store stays consistent. */
  lemma PasswordResetKeepsInvariants(s: seq<Account>, nextId: nat, id: nat, passwordHash: string)
    requires Consistent(s, nextId)
    ensures Consistent(WithPasswordReset(s, id, passwordHash), nextId)
    ensures IdentitiesUnique(s) ==> IdentitiesUnique(WithPasswordReset(s, id, passwordHash))
  {
    var r := WithPasswordReset(s, id, passwordHash);
    assert forall j :: 0 <= j < |s| ==> (r[j].email == s[j].email && r[j].id == s[j].id
      && r[j].provider == s[j].provider && r[j].providerId == s[j].providerId);
  }

  /** A ticket just set on the account with that email is found by its hash until it expires, if no other account holds a live ticket with the same hash. */
  lemma {:induction false} TicketFoundWhileLive(s: seq<Account>, email: string, hash: string, expiry: int, now: int)
    requires FindOne(s, ByEmail(email)).Some?
    requires now < expiry
    requires forall j :: 0 <= j < |s| && s[j].email != email ==> !Matches(ByLiveResetToken(hash, now), s[j])
    requires EmailsUnique(s)
    ensures FindOne(WithResetTicket(s, email, hash, expiry), ByLiveResetToken(hash, now)) == FindOne(s, ByEmail(email))
  {
    var i := FindOne(s, ByEmail(email)).value;
    var r := WithResetTicket(s, email, hash, expiry);
    assert Matches(ByLiveResetToken(hash, now), r[i]);
    assert forall j :: 0 <= j < i ==> !Matches(ByLiveResetToken(hash, now), r[j]);
    FindOneFirst(r, ByLiveResetToken(hash, now), i);
  }

  /** A ticket is never found once `now` has reached its expiry. */
  lemma ExpiredTicketNotFound(s: seq<Account>, hash: string, now: int)
    requires forall j :: 0 <= j < |s| && s[j].resetTokenExpiry.Some? ==> s[j].resetTokenExpiry.value <= now
    ensures FindOne(s, ByLiveResetToken(hash, now)).None?
  {
  }

  /** After a password reset, the account's ticket matches no lookup, so the only holder of a hash can no longer be found by it. */
  lemma {:induction false} ResetConsumesTicket(s: seq<Account>, nextId: nat, i: nat, passwordHash: string, hash: string, now: int)
    requires Consistent(s, nextId)
    requires i < |s|
    requires forall j :: 0 <= j < |s| && j != i ==> !Matches(ByLiveResetToken(hash, now), s[j])
    ensures FindOne(WithPasswordReset(s, s[i].id, passwordHash), ByLiveResetToken(hash, now)).None?
  {
    var r := WithPasswordReset(s, s[i].id, passwordHash);
    FindOneFirst(s, ById(s[i].id), i);
    assert r[i].resetTokenHash.None?;
  }

  /**
   * A ticket issued to the account with `email`, whose hash no other account
   * holds live at `later`, is found at `later` while it has not expired; once the
   * password is reset it is found at no time from `later` on.
   */
  lemma IssueThenConsume(s: seq<Account>, nextId: nat, i: nat, email: string, hash: string, expiry: int,
                         later: int, again: int, passwordHash: string)
    requires Consistent(s, nextId)
    requires FindOne(s, ByEmail(email)) == Some(i)
    requires later < expiry && later <= again
    requires forall j :: 0 <= j < |s| && s[j].email != email ==> !Matches(ByLiveResetToken(hash, later), s[j])
    ensures FindOne(WithResetTicket(s, email, hash, expiry), ByLiveResetToken(hash, later)) == Some(i)
    ensures FindOne(WithPasswordReset(WithResetTicket(s, email, hash, expiry), s[i].id, passwordHash),
                    ByLiveResetToken(hash, again)).None?
  {
    var issued := WithResetTicket(s, email, hash, expiry);
    TicketFoundWhileLive(s, email, hash, expiry, later);
    ResetTicketKeepsInvariants(s, nextId, email, hash, expiry);
    forall j | 0 <= j < |issued| && j != i
      ensures !Matches(ByLiveResetToken(hash, again), issued[j])
    {
      assert issued[j] == s[j];
      assert s[j].email != email;
    }
    ResetConsumesTicket(issued, nextId, i, passwordHash, hash, again);
  }

  /** When position i matches and nothing before it does, `findOne` returns i. */
  lemma {:induction false} FindOneFirst(s: seq<Account>, f: Filter, i: nat)
    requires i < |s| && Matches(f, s[i])
    requires forall j :: 0 <= j < i ==> !Matches(f, s[j])
    ensures FindOne(s, f) == Some(i)
  {
    if i > 0 {
      FindOneFirst(s[1..], f, i - 1);
    }
  }

  /** The profile data a social login hands over. */
  datatype SocialData = SocialData(
    provider: string,
    providerId: Option<string>,
    email: string,
    firstName: string,
    lastName: string,
    avatarUrl: Option<string>)

  /** The fields of a brand-new social account: no password hash, the avatar ('' when absent) in the profile. */
  function SocialNewUser(d: SocialData): NewUser {
    NewUser(d.email, None, d.firstName, d.lastName, None, Some(d.provider), d.providerId,
            Some(Profile(None, Some(d.avatarUrl.GetOr("")), None)))
  }

  /** The store after `findOrCreateSocial`, its next id and the account it returns or the error it throws. */
  datatype Upsert = Upsert(accounts: seq<Account>, nextId: nat, result: Result<Account, StoreError>)

  /**
   * `findOrCreateSocial`: (1) an account with this provider and providerId is returned
   * as it is; (2) otherwise, for a non-empty email, the account with that email is
   * linked to this identity and returned; (3) otherwise a new account is inserted.
   */
  function SocialUpsert(s: seq<Account>, nextId: nat, d: SocialData): (u: Upsert)
    ensures FindOne(s, ByIdentity(d.provider, d.providerId)).Some? ==>
      u == Upsert(s, nextId, Ok(s[FindOne(s, ByIdentity(d.provider, d.providerId)).value]))
    ensures u.result.Ok? ==> Matches(ByIdentity(d.provider, d.providerId), u.result.value)
    ensures u.result.Ok? ==> u.result.value in u.accounts
    ensures |s| <= |u.accounts| <= |s| + 1
    ensures u.result.Err? ==> d.email == "" && u.accounts == s && u.nextId == nextId
  {
    match FindOne(s, ByIdentity(d.provider, d.providerId))
    case Some(i) => Upsert(s, nextId, Ok(s[i]))
    case None =>
      var byEmail := if d.email != "" then FindOne(s, ByEmail(d.email)) else None;
      match byEmail
      case Some(i) =>
        var linked := s[i].(provider := Some(d.provider), providerId := d.providerId);
        assert s[i := linked][i] == linked;
        Upsert(s[i := linked], nextId, Ok(linked))
      case None =>
        match Insert(s, nextId, SocialNewUser(d))
        case Err(e) => Upsert(s, nextId, Err(e))
        case Ok(grown) => Upsert(grown, nextId + 1, Ok(grown[|s|]))
  }

  /** Linking: with no identity match, a non-empty email of an existing account links that account and creates none. */
  lemma SocialUpsertLinksByEmail(s: seq<Account>, nextId: nat, d: SocialData)
    requires FindOne(s, ByIdentity(d.provider, d.providerId)).None?
    requires d.email != "" && FindOne(s, ByEmail(d.email)).Some?
    ensures var i := FindOne(s, ByEmail(d.email)).value;
      var u := SocialUpsert(s, nextId, d);
      && u.accounts == s[i := s[i].(provider := Some(d.provider), providerId := d.providerId)]
      && u.nextId == nextId
      && u.result == Ok(u.accounts[i])
  {
  }

  /** Creation: with neither match, exactly one account without a password hash is added, or the email index refuses it. */
  lemma SocialUpsertCreates(s: seq<Account>, nextId: nat, d: SocialData)
    requires FindOne(s, ByIdentity(d.provider, d.providerId)).None?
    requires d.email == "" || FindOne(s, ByEmail(d.email)).None?
    ensures var u := SocialUpsert(s, nextId, d);
      u.result.Ok? ==>
        && u.accounts == s + [u.result.value]
        && u.nextId == nextId + 1
        && u.result.value == WithDefaults(nextId, SocialNewUser(d))
        && u.result.value.passwordHash.None?
        && u.result.value.profile.avatarUrl == Some(d.avatarUrl.GetOr(""))
  {
  }

  /** Every outcome keeps the store consistent and identities unique. */
  lemma SocialUpsertKeepsInvariants(s: seq<Account>, nextId: nat, d: SocialData)
    requires Consistent(s, nextId)
    ensures Consistent(SocialUpsert(s, nextId, d).accounts, SocialUpsert(s, nextId, d).nextId)
    ensures IdentitiesUnique(s) ==> IdentitiesUnique(SocialUpsert(s, nextId, d).accounts)
  {
    var u := SocialUpsert(s, nextId, d);
    if FindOne(s, ByIdentity(d.provider, d.providerId)).None? {
      var byEmail := if d.email != "" then FindOne(s, ByEmail(d.email)) else None;
      if byEmail.Some? {
        var i := byEmail.value;
        var r := u.accounts;
        assert forall j :: 0 <= j < |s| ==> (r[j].email == s[j].email && r[j].id == s[j].id
          && r[j].resetTokenHash == s[j].resetTokenHash && r[j].resetTokenExpiry == s[j].resetTokenExpiry);
        forall j, k | 0 <= j < k < |r| && r[j].provider.Some? && IdentitiesUnique(s)
          ensures r[j].provider != r[k].provider || r[j].providerId != r[k].providerId
        {
          if j == i {
            assert !Matches(ByIdentity(d.provider, d.providerId), s[k]);
          } else if k == i {
            assert !Matches(ByIdentity(d.provider, d.providerId), s[j]);
          }
        }
      } else if Insert(s, nextId, SocialNewUser(d)).Ok? {
        InsertKeepsInvariants(s, nextId, SocialNewUser(d));
      }
    }
  }

  /** A repeated social login with the same provider and providerId returns the same account and changes nothing. */
  lemma SocialUpsertIdempotent(s: seq<Account>, nextId: nat, d: SocialData)
    requires SocialUpsert(s, nextId, d).result.Ok?
    ensures var u := SocialUpsert(s, nextId, d);
      SocialUpsert(u.accounts, u.nextId, d) == Upsert(u.accounts, u.nextId, u.result)
  {
    var u := SocialUpsert(s, nextId, d);
    var f := ByIdentity(d.provider, d.providerId);
    match FindOne(s, f)
    case Some(i) =>
    case None =>
      var byEmail := if d.email != "" then FindOne(s, ByEmail(d.email)) else None;
      if byEmail.Some? {
        var i := byEmail.value;
        FindOneFirst(u.accounts, f, i);
      } else {
        FindOneFirst(u.accounts, f, |s|);
      }
  }

  /** The account collection, held and updated in place. */
  class UserDirectory {
    var accounts: seq<Account>
    var nextId: nat

    ghost predicate Valid()
      reads this
    {
      Consistent(accounts, nextId)
    }

    constructor ()
      ensures Valid() && accounts == [] && nextId == 0
    {
      accounts := [];
      nextId := 0;
    }

    /** `create`: save a new document, or fail on the unique email index. */
    method Create(n: NewUser) returns (r: Result<Account, StoreError>)
      requires Valid()
      modifies this
      ensures Valid()
      ensures Insert(old(accounts), old(nextId), n).Err? ==>
        r == Err(DuplicateEmail(n.email)) && accounts == old(accounts) && nextId == old(nextId)
      ensures Insert(old(accounts), old(nextId), n).Ok? ==>
        && r == Ok(WithDefaults(old(nextId), n))
        && accounts == old(accounts) + [r.value]
        && nextId == old(nextId) + 1
    {
      match Insert(accounts, nextId, n)
      case Err(e) =>
        r := Err(e);
      case Ok(grown) =>
        r := Ok(WithDefaults(nextId, n));
        InsertKeepsInvariants(accounts, nextId, n);
        accounts := grown;
        nextId := nextId + 1;
    }

    /** `findOneByEmail`: the account whose email is exactly this string (no trimming, no case folding). */
    function FindOneByEmail(email: string): (r: Option<Account>)
      reads this
      ensures r.Some? ==> r.value.email == email && exists i :: 0 <= i < |accounts| && accounts[i] == r.value
      ensures r.None? ==> forall j :: 0 <= j < |accounts| ==> accounts[j].email != email
    {
      match FindOne(accounts, ByEmail(email))
      case None => None
      case Some(i) => Some(accounts[i])
    }

    /** `findById`. */
    function FindById(id: nat): (r: Option<Account>)
      reads this
      ensures r.Some? ==> r.value.id == id && exists i :: 0 <= i < |accounts| && accounts[i] == r.value
      ensures r.None? ==> forall j :: 0 <= j < |accounts| ==> accounts[j].id != id
    {
      match FindOne(accounts, ById(id))
      case None => None
      case Some(i) => Some(accounts[i])
    }

    /** `setResetToken`: store hash and expiry on the account with that email. */
    method SetResetToken(email: string, hash: string, expiry: int)
      requires Valid()
      modifies this
      ensures Valid() && nextId == old(nextId)
      ensures accounts == WithResetTicket(old(accounts), email, hash, expiry)
    {
      ResetTicketKeepsInvariants(accounts, nextId, email, hash, expiry);
      accounts := WithResetTicket(accounts, email, hash, expiry);
    }

    /** `findByResetToken`: the account holding the trimmed hash with an expiry strictly after `now`. */
    function FindByResetToken(hash: string, now: int): (r: Option<Account>)
      reads this
      ensures r.Some? ==> r.value.resetTokenHash == Some(JsString.Trim(hash)) && exists i :: 0 <= i < |accounts| && accounts[i] == r.value
      ensures r.Some? ==> r.value.resetTokenExpiry.Some? && r.value.resetTokenExpiry.value > now
      ensures r.None? ==> forall j :: 0 <= j < |accounts| ==> !Matches(ByLiveResetToken(JsString.Trim(hash), now), accounts[j])
    {
      match FindOne(accounts, ByLiveResetToken(JsString.Trim(hash), now))
      case None => None
      case Some(i) => Some(accounts[i])
    }

    /** `updatePasswordAndClearToken`: new hash, and both reset fields cleared, on the account with that id. */
    method UpdatePasswordAndClearToken(id: nat, passwordHash: string)
      requires Valid()
      modifies this
      ensures Valid() && nextId == old(nextId)
      ensures accounts == WithPasswordReset(old(accounts), id, passwordHash)
    {
      PasswordResetKeepsInvariants(accounts, nextId, id, passwordHash);
      accounts := WithPasswordReset(accounts, id, passwordHash);
    }

    /** `findOrCreateSocial`. */
    method FindOrCreateSocial(d: SocialData) returns (r: Result<Account, StoreError>)
      requires Valid()
      modifies this
      ensures Valid()
      ensures var u := SocialUpsert(old(accounts), old(nextId), d);
        accounts == u.accounts && nextId == u.nextId && r == u.result
    {
      var u := SocialUpsert(accounts, nextId, d);
      SocialUpsertKeepsInvariants(accounts, nextId, d);
      accounts, nextId, r := u.accounts, u.nextId, u.result;
    }
  }
}
