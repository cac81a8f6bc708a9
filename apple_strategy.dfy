/**
 * The Apple sign-in strategy: the configuration decision its constructor makes
 * before handing settings to passport, and `validate`, which turns Apple's
 * identity token and first-login name into the profile `socialLogin` reads.
 */
module AppleStrategy {
  import opened Wrappers
  import JsString
  import opened AuthService

  /** The claims of Apple's identity token that `validate` reads. */
  datatype IdToken = IdToken(sub: Option<string>, email: Option<string>)

  /** `profile.name`, which Apple sends on the first login only. */
  datatype AppleName = AppleName(firstName: Option<string>, lastName: Option<string>)

  /** A configuration value is usable when it is set and non-empty (JavaScript truthiness). */
  predicate Present(v: Option<string>) {
    v.Some? && v.value != []
  }

  /** `"${firstName ?? ''} ${lastName ?? ''}".trim()`. */
  function JoinedName(n: AppleName): string {
    JsString.Trim(n.firstName.GetOr("") + " " + n.lastName.GetOr(""))
  }

  /**
   * `validate`: `id` is the token's subject, `emails` holds the token's email
   * when it is non-empty, `displayName` is the trimmed joined name or '' when
   * no name was sent, and there are no photos and no structured name.
   */
  function Validate(idToken: Option<IdToken>, name: Option<AppleName>): (p: SocialProfile)
    ensures p.id == (if idToken.Some? then idToken.value.sub else None)
    ensures p.emails == (if idToken.Some? && Present(idToken.value.email) then [idToken.value.email] else [])
    ensures p.name.None? && p.photos == []
    ensures p.displayName.Some? && JsString.IsTrimmed(p.displayName.value)
    ensures name.None? ==> p.displayName.value == ""
    ensures name.Some? ==>
      p.displayName.value == JsString.Trim(name.value.firstName.GetOr("") + " " + name.value.lastName.GetOr(""))
  {
    SocialProfile(
      if idToken.Some? then idToken.value.sub else None,
      if idToken.Some? && Present(idToken.value.email) then [idToken.value.email] else [],
      None,
      Some(if name.Some? then JoinedName(name.value) else ""),
      [])
  }

  /** No white space inside. */
  predicate IsWord(s: string) {
    forall i :: 0 <= i < |s| ==> !JsString.IsWhiteSpace(s[i])
  }

  /** Two words joined by a space are already trimmed. */
  lemma JoinedWords(first: string, last: string)
    requires first != [] && last != [] && IsWord(first) && IsWord(last)
    ensures JoinedName(AppleName(Some(first), Some(last))) == first + " " + last
  {
    var joined := first + " " + last;
    assert JsString.IsTrimmed(joined) by {
      assert joined[0] == first[0];
      assert joined[|joined| - 1] == last[|last| - 1];
    }
    JsString.TrimOfTrimmed(joined);
  }

  /** A space-free word alone trims to itself after a leading space. */
  lemma JoinedLastOnly(first: Option<string>, last: string)
    requires first.None? || first == Some("")
    requires last != [] && IsWord(last)
    ensures JoinedName(AppleName(first, Some(last))) == last
  {
    var joined := " " + last;
    assert first.GetOr("") + " " + last == joined;
    assert JsString.TrimStart(joined) == JsString.TrimStart(last) by {
      assert joined[0] == ' ' && JsString.IsWhiteSpace(' ');
      assert joined[1..] == last;
    }
    assert JsString.IsTrimmed(last);
    JsString.TrimOfTrimmed(last);
  }

  /** A space-free word alone trims to itself before a trailing space. */
  lemma JoinedFirstOnly(first: string, last: Option<string>)
    requires first != [] && IsWord(first)
    requires last.None? || last == Some("")
    ensures JoinedName(AppleName(Some(first), last)) == first
  {
    var joined := first + " ";
    assert first + " " + last.GetOr("") == joined;
    assert JsString.TrimStart(joined) == joined by {
      assert joined[0] == first[0];
    }
    assert JsString.TrimEnd(joined) == JsString.TrimEnd(first) by {
      assert joined[|joined| - 1] == ' ' && JsString.IsWhiteSpace(' ');
      assert joined[..|joined| - 1] == first;
    }
    assert JsString.IsTrimmed(first);
    JsString.TrimOfTrimmed(first);
  }

  /**
   * With only a first name, the joined name trims to that first name, which
   * `socialLogin` stores as the first name, with an empty last name.
   */
  lemma FirstNameOnlyKeepsIt(idToken: Option<IdToken>, first: string, last: Option<string>)
    requires first != [] && IsWord(first)
    requires last.None? || last == Some("")
    ensures var p := Validate(idToken, Some(AppleName(Some(first), last)));
      FirstName(p) == first && LastName(p) == ""
  {
    JoinedFirstOnly(first, last);
    var p := Validate(idToken, Some(AppleName(Some(first), last)));
    assert p.displayName.value == first;
    assert ' ' !in first by {
      assert JsString.IsWhiteSpace(' ');
    }
    NamesFromDisplayName(p);
  }

  /**
   * A first and last name that are single non-empty words come back out of
   * `socialLogin`'s display-name split unchanged.
   */
  lemma NamesRoundTrip(idToken: Option<IdToken>, first: string, last: string)
    requires first != [] && last != [] && IsWord(first) && IsWord(last)
    ensures var p := Validate(idToken, Some(AppleName(Some(first), Some(last))));
      FirstName(p) == first && LastName(p) == last
  {
    JoinedWords(first, last);
    JsString.SplitWithoutSep(last, ' ');
    JsString.SplitAtFirst(first, last, ' ');
    var parts := JsString.Split(first + " " + last, ' ');
    assert parts == [first, last];
    assert parts[1..] == [last];
  }

  /**
   * With only a last name, the joined name trims to that last name, which
   * `socialLogin` then stores as the first name, with an empty last name.
   */
  lemma LastNameOnlyBecomesFirstName(idToken: Option<IdToken>, first: Option<string>, last: string)
    requires first.None? || first == Some("")
    requires last != [] && IsWord(last)
    ensures var p := Validate(idToken, Some(AppleName(first, Some(last))));
      FirstName(p) == last && LastName(p) == ""
  {
    JoinedLastOnly(first, last);
    JsString.SplitWithoutSep(last, ' ');
    assert JsString.Split(last, ' ')[1..] == [];
  }

  /** Two positions that each hold the first space of a string are the same. */
  lemma FirstSpaceAt(s: string, i: nat, j: nat)
    requires i < |s| && j < |s| && s[i] == ' ' && s[j] == ' '
    requires forall k :: 0 <= k < i ==> s[k] != ' '
    requires forall k :: 0 <= k < j ==> s[k] != ' '
    ensures i == j
  {
  }

  /** Cutting at the first space is unique: two space-free heads of the same string agree. */
  lemma {:induction false} FirstSpaceCutUnique(a: string, b: string, f: string, l: string)
    requires ' ' !in a && ' ' !in f
    requires a + " " + b == f + " " + l
    ensures f == a && l == b
  {
    var dn := a + " " + b;
    assert forall k :: 0 <= k < |a| ==> dn[k] == a[k];
    assert forall k :: 0 <= k < |f| ==> dn[k] == (f + " " + l)[k] == f[k];
    FirstSpaceAt(dn, |a|, |f|);
    assert a == dn[..|a|] && f == (f + " " + l)[..|f|];
    assert b == dn[|a| + 1..] && l == (f + " " + l)[|f| + 1..];
  }

  /** Three words joined by spaces trim to themselves. */
  lemma ThreeWordsTrimmed(w1: string, w2: string, w3: string)
    requires w1 != [] && w3 != [] && IsWord(w1) && IsWord(w3)
    ensures JsString.Trim(w1 + " " + w2 + " " + w3) == w1 + " " + w2 + " " + w3
  {
    var dn := w1 + " " + w2 + " " + w3;
    assert JsString.IsTrimmed(dn) by {
      assert dn[0] == w1[0];
      assert dn[|dn| - 1] == w3[|w3| - 1];
    }
    JsString.TrimOfTrimmed(dn);
  }

  /**
   * A two-word first name shifts: `socialLogin` keeps only its first word as
   * the first name and stores its second word, a space and the last name as
   * the last name.
   */
  lemma MultiWordFirstNameShifts(idToken: Option<IdToken>, first1: string, first2: string, last: string)
    requires first1 != [] && first2 != [] && last != []
    requires IsWord(first1) && IsWord(first2) && IsWord(last)
    ensures var p := Validate(idToken, Some(AppleName(Some(first1 + " " + first2), Some(last))));
      FirstName(p) == first1 && LastName(p) == first2 + " " + last
  {
    var rest := first2 + " " + last;
    var dn := first1 + " " + rest;
    ThreeWordsTrimmed(first1, first2, last);
    assert first1 + " " + first2 + " " + last == dn;
    var p := Validate(idToken, Some(AppleName(Some(first1 + " " + first2), Some(last))));
    assert p.displayName.value == dn;
    assert dn[|first1|] == ' ';
    NamesFromDisplayName(p);
    assert ' ' !in first1 by {
      assert JsString.IsWhiteSpace(' ');
    }
    FirstSpaceCutUnique(first1, rest, FirstName(p), LastName(p));
  }

  /** Without a name (every login after the first), both names come out empty. */
  lemma NoNameGivesEmptyNames(idToken: Option<IdToken>)
    ensures var p := Validate(idToken, None);
      FirstName(p) == "" && LastName(p) == ""
  {
    assert JsString.Split("", ' ') == [""];
  }

  /** The settings handed to passport-apple. */
  datatype AppleSettings = AppleSettings(
    clientId: string, teamId: string, keyId: string, privateKey: string, callbackUrl: string, scope: seq<string>)

  /** The environment values the constructor reads. */
  datatype AppleConfig = AppleConfig(
    enableFlag: Option<string>,
    clientId: Option<string>,
    teamId: Option<string>,
    keyId: Option<string>,
    keyPath: Option<string>,
    callbackUrl: Option<string>)

  const Scope: seq<string> := ["name", "email"]
  const DisabledValue := "disabled"
  const MissingConfigMessage :=
    "Apple Sign-In is enabled but APPLE_CLIENT_ID/APPLE_TEAM_ID/APPLE_KEY_ID/APPLE_PRIVATE_KEY_PATH/APPLE_CALLBACK_URL are not fully configured."

  /** Apple sign-in is on unless the flag is exactly the string 'false'. */
  predicate Enabled(c: AppleConfig) {
    c.enableFlag != Some("false")
  }

  /**
   * The private key text: the key file's contents when a non-empty path names
   * an existing file, otherwise ''. `readFile` stands for the file system,
   * giving None for a file that does not exist.
   */
  function PrivateKey(c: AppleConfig, readFile: string -> Option<string>): string {
    if Present(c.keyPath) && readFile(c.keyPath.value).Some? then readFile(c.keyPath.value).value else ""
  }

  /**
   * The constructor: disabled, it always succeeds with 'disabled' placeholders;
   * enabled, it throws unless every value and the key text are non-empty, and
   * otherwise passes them on unchanged. The scope is always name and email.
   */
  function Configure(c: AppleConfig, readFile: string -> Option<string>): (r: Result<AppleSettings, string>)
    ensures !Enabled(c) ==>
      (r.Ok? && r.value.clientId == "disabled" && r.value.teamId == "disabled"
       && r.value.keyId == "disabled" && r.value.privateKey == "disabled" && r.value.callbackUrl == "disabled")
    ensures Enabled(c) ==>
      (r.Ok? <==> Present(c.clientId) && Present(c.teamId) && Present(c.keyId)
                  && PrivateKey(c, readFile) != [] && Present(c.callbackUrl))
    ensures Enabled(c) && r.Ok? ==>
      && Some(r.value.clientId) == c.clientId && Some(r.value.teamId) == c.teamId && Some(r.value.keyId) == c.keyId
      && r.value.privateKey == PrivateKey(c, readFile) && Some(r.value.callbackUrl) == c.callbackUrl
    ensures r.Ok? ==> r.value.scope == ["name", "email"]
    ensures r.Err? ==> r.error == MissingConfigMessage
  {
    var key := PrivateKey(c, readFile);
    if !Enabled(c) then
      Ok(AppleSettings(DisabledValue, DisabledValue, DisabledValue, DisabledValue, DisabledValue, Scope))
    else if !Present(c.clientId) || !Present(c.teamId) || !Present(c.keyId) || key == [] || !Present(c.callbackUrl) then
      Err(MissingConfigMessage)
    else
      Ok(AppleSettings(c.clientId.value, c.teamId.value, c.keyId.value, key, c.callbackUrl.value, Scope))
  }

  /** Enabled with a key path that names no file, the constructor throws, whatever else is configured. */
  lemma MissingKeyFileThrows(c: AppleConfig, readFile: string -> Option<string>)
    requires Enabled(c)
    requires c.keyPath.None? || readFile(c.keyPath.value).None?
    ensures Configure(c, readFile).Err?
  {
  }
}
