# D-Access authentication and identity linking, in Dafny

This project models the authentication core of D-Access, an accessibility
mapping app. The core has two parts: a NestJS back end and the React Native
app that talks to it.

The back end:

- **Accounts.** The user directory stores accounts. E-mail is unique, a new
  account gets the schema defaults, and lookups return the first match.
- **Sign-in service.** The authentication service checks credentials,
  registers accounts, signs access tokens, and links or creates accounts on
  Google, Facebook and Apple sign-in. It also runs the password-reset ticket:
  a random code is mailed, its SHA-256 hash is stored with a 15-minute
  expiry, and the hash is consumed on reset.
- **Controller.** The controller turns a failed login into a 401. It carries
  the app's redirect across an OAuth round trip, either in the Google `state`
  or in the `oauth_redirect` cookie, and sends the app back with
  `?token=<jwt>`.
- **Guards and strategy.** The roles guard and the Google guard, the Apple
  strategy's configuration and profile mapping, and the four request DTOs
  with their transforms and validation rules.

The app:

- **Session (`AuthContext`).** It restores the stored token, takes the token
  out of a deep link (with its two duplicate guards), handles login,
  registration and logout, and builds the social-login URL.
- **Screens.** The login, sign-up and reset-password screens with their
  checks and alerts. The API base-URL choice. The tag and category state of
  the add-report screen and the switches of the accessibility settings.

Where the source mutates state, the model does too:

- the directory, the mail outbox, the session, the browser's cookies, the
  device and the two screen forms are classes whose methods update their
  fields;
- each method is proved against a pure function of the old state
  (`SocialUpsert`, `WithResetTicket`, `WithPasswordReset`, `Toggled`,
  `FilterOutIndex`), and the properties are proved about those functions.

Cryptography is a value of `Crypto.Primitives`, a record of functions for
bcrypt hash and compare, SHA-256 and JWT signing. `Sound` states only that
bcrypt compare accepts what bcrypt hash produced. Salts, random bytes, the
clock, the outcome of sending a mail and every server answer the app receives
are parameters.

Where the code departs from its own declarations and comments, the model
follows the code:

- The DTO decorators are declared but enforced on no route, because `main.ts`
  installs no validation pipe (back-end/src/main.ts:9-25 only adds the cookie
  parser and CORS). As a result:
  - the controller hands the raw body to the service;
  - login compares the e-mail exactly, without trimming or lower-casing.

  The DTOs are modelled as their own validators (`LoginDto.Validate` and the
  others), and the service is modelled on raw strings.
- The comment at back-end/src/auth/auth.service.ts:101 says not to reveal
  whether the e-mail exists. Yet `forgotPassword` answers a known e-mail with a
  different message, so the answer does reveal it.
- A social account is created without a password hash, although the schema
  declares that field `required` (`UserSchema.NoHashBreaksDeclaredSchema`).
  The schema's validation would refuse that create. The model stores the
  account as the service code writes it (see "## Left out").

Other behaviour the model keeps:

- `register` answers with the created record, password hash included. Login
  strips the hash.
- `isAuthenticated` is `!!token && !!user`, so an empty token string does not
  count as signed in.
- A mail failure in `forgotPassword` is rethrown after the ticket has been
  stored.
- When the profile fetch in `handleDeepLink` fails, storage is cleared but the
  in-memory token is kept.
- `logout` keeps the last handled deep-link token.
- The DTOs' `MinLength` counts code points, not counting U+FE0E and U+FE0F
  (the validator library's rule). The reset screen's `.length` counts UTF-16
  code units.

## Model

| member | source | states |
|---|---|---|
| UserSchema.WithDefaults | back-end/src/users/schemas/user.schema.ts:14-28 | a new document keeps every supplied field, and gets role 'user', profile {}, savedPlaces [] and karma 0 where none was supplied; it holds no reset ticket |
| UserSchema.NoHashBreaksDeclaredSchema | back-end/src/users/schemas/user.schema.ts:11-12 | any record created without passwordHash violates the declared `required` rule on that field |
| UsersService.FindOne | back-end/src/users/users.service.ts:15-17 | `findOne` returns the first matching document: it matches, none before it matches, and None only when no document matches |
| UsersService.FindOneFirst | back-end/src/users/users.service.ts:56-58 | whenever position i matches and nothing before it does, `findOne` returns i |
| UsersService.Insert | back-end/src/users/users.service.ts:10-13 | saving fails with the duplicate-key error exactly when the e-mail is already stored; otherwise the document with its defaults is appended |
| UsersService.InsertKeepsInvariants | back-end/src/users/users.service.ts:10-13 | an insert keeps e-mails unique, ids fresh and reset fields paired; with a new identity it keeps (provider, providerId) unique |
| UsersService.UserDirectory.Create | back-end/src/users/users.service.ts:10-13 | `create` either refuses a taken e-mail and changes nothing, or appends the defaulted document, returns it and advances the id; the directory stays consistent |
| UsersService.UserDirectory.FindOneByEmail | back-end/src/users/users.service.ts:15-17 | the account returned has exactly this e-mail and is stored; None means no stored account has it |
| UsersService.UserDirectory.FindById | back-end/src/users/users.service.ts:19-21 | the account returned has this id and is stored; None means no account has it |
| UsersService.WithResetTicket | back-end/src/users/users.service.ts:23-28 | only the first account with the e-mail changes, and it gets both the hash and the expiry; every other account is unchanged |
| UsersService.ResetTicketKeepsInvariants | back-end/src/users/users.service.ts:23-28 | setting a ticket keeps the directory consistent and identities unique |
| UsersService.UserDirectory.SetResetToken | back-end/src/users/users.service.ts:23-28 | the new store is `WithResetTicket` of the old, and the directory stays consistent |
| UsersService.UserDirectory.FindByResetToken | back-end/src/users/users.service.ts:30-34 | the account returned holds the trimmed hash with an expiry strictly after now; None means no account holds it live |
| UsersService.TicketFoundWhileLive | back-end/src/users/users.service.ts:23-34 | a ticket just set on an account is found by its hash before expiry, if no other account holds the same hash live |
| UsersService.ExpiredTicketNotFound | back-end/src/users/users.service.ts:32 | once now has reached every expiry, no ticket lookup finds anything |
| UsersService.WithPasswordReset | back-end/src/users/users.service.ts:36-41 | only the account with the id changes: it gets the new hash, and both reset fields are cleared |
| UsersService.PasswordResetKeepsInvariants | back-end/src/users/users.service.ts:36-41 | a password reset keeps the directory consistent and identities unique |
| UsersService.UserDirectory.UpdatePasswordAndClearToken | back-end/src/users/users.service.ts:36-41 | the new store is `WithPasswordReset` of the old, and the directory stays consistent |
| UsersService.ResetConsumesTicket | back-end/src/users/users.service.ts:36-41 | after the reset of the only holder of a hash, no lookup of that hash finds anything |
| UsersService.IssueThenConsume | back-end/src/users/users.service.ts:23-41 | a ticket issued to an account is found by its hash while live, and is found at no later time once the password has been reset |
| UsersService.SocialUpsert | back-end/src/users/users.service.ts:47-84 | an account with the identity is returned unchanged; any account returned carries the identity and is stored; at most one account is added; failure only for an empty e-mail already stored, with nothing changed |
| UsersService.SocialUpsertLinksByEmail | back-end/src/users/users.service.ts:61-69 | with no identity match, a stored non-empty e-mail links that account to the identity, and nothing is created |
| UsersService.SocialUpsertCreates | back-end/src/users/users.service.ts:72-81 | with neither match, exactly one account is appended: no password hash, the avatar ('' when absent) in its profile |
| UsersService.SocialUpsertKeepsInvariants | back-end/src/users/users.service.ts:47-84 | every outcome keeps e-mails unique, ids fresh, tickets paired and identities unique |
| UsersService.SocialUpsertIdempotent | back-end/src/users/users.service.ts:56-58 | signing in again with the same identity returns the same account and changes nothing |
| UsersService.UserDirectory.FindOrCreateSocial | back-end/src/users/users.service.ts:47-84 | store, id counter and result are those of `SocialUpsert`, and the directory stays consistent |
| AuthService.StripPasswordHash | back-end/src/auth/auth.service.ts:26-27 | the result has no password hash and agrees with the record on every other field |
| AuthService.ValidateUser | back-end/src/auth/auth.service.ts:16-31 | a user comes back only if the password verifies against the hash of an account with exactly that e-mail, hash removed; with unique e-mails, null exactly when no such account verifies; an error only for an account without a hash |
| AuthService.Login | back-end/src/auth/auth.service.ts:33-39 | the token is signed over the account's e-mail, id and role, and the same user object is returned |
| AuthService.BuildToken | back-end/src/auth/auth.service.ts:88-92 | the social-login token is the one `login` would issue for the same account |
| AuthService.TokenDependsOnClaimsOnly | back-end/src/auth/auth.service.ts:34 | accounts that agree on e-mail, id and role get the same token; stripping the hash changes nothing |
| AuthService.RegisteredAccount | back-end/src/auth/auth.service.ts:49-60 | a registered account has role 'user' whatever the body says, the given names or '', the bcrypt hash, no identity and no ticket |
| AuthService.RegisterThenValidate | back-end/src/auth/auth.service.ts:41-64 | after registering, `validateUser` with the same e-mail and password returns the new account without its hash |
| AuthService.Authenticator.Register | back-end/src/auth/auth.service.ts:41-64 | a stored e-mail fails with 'User already exists' and changes nothing; otherwise exactly one account is appended and the login response carries it |
| AuthService.FirstValue | back-end/src/auth/auth.service.ts:71 | the first entry's value; '' when the list is empty or the first entry has no value |
| AuthService.FirstName | back-end/src/auth/auth.service.ts:72 | a structured given name wins; without one, the display name up to its first space (no space inside, the whole name when it has none); without either, '' |
| AuthService.LastName | back-end/src/auth/auth.service.ts:73 | a structured family name wins; without one, the display name after its first space ('' when it has none); without either, '' |
| AuthService.NamesFromDisplayName | back-end/src/auth/auth.service.ts:72-73 | without structured given and family names, the display name splits at its first space into first and last name, and first + ' ' + last gives it back; with no space the last name is '' |
| AuthService.SocialDataOf | back-end/src/auth/auth.service.ts:70-83 | the identity is provider and profile id; the e-mail and avatar are the first entries' values or ''; each name is decided on its own: the given (family) name wins when present, is '' with neither it nor a display name, and otherwise comes from splitting the display name at its first space, as `FirstName` and `LastName` state |
| AuthService.Authenticator.SocialLogin | back-end/src/auth/auth.service.ts:70-86 | the store follows `SocialUpsert`, and the answer is only the token of the account it returns |
| AuthService.Mailer.SendPasswordReset | back-end/src/auth/mail.service.ts:21-48 | a delivered mail to the address carrying the raw code joins the outbox; a failure adds nothing and is reported |
| AuthService.TicketHashIsTrimmed | back-end/src/auth/auth.service.ts:106 | a stored ticket hash is hex text, so the lookup's trim leaves it unchanged |
| AuthService.ResetTokenShape | back-end/src/auth/auth.service.ts:105 | the reset code is 32 hex digits with no surrounding white space |
| AuthService.Authenticator.ForgotPassword | back-end/src/auth/auth.service.ts:98-113 | an unknown e-mail changes nothing and sends nothing; a known one stores the hash of the fresh code with a 15-minute expiry and mails the raw code; a mail failure is an error after the ticket is stored |
| AuthService.Authenticator.ResetPassword | back-end/src/auth/auth.service.ts:115-127 | without a live ticket for the trimmed code: 'Invalid or expired reset token.' and nothing changes; otherwise that account gets the new hash and loses its ticket |
| AuthService.ForgotThenReset | back-end/src/auth/auth.service.ts:98-127 | the mailed code, with or without surrounding white space, finds the account within 15 minutes, and finds nothing at any time after the reset |
| Uri.DecodeEncode | back-end/src/auth/auth.controller.ts:23 | `decodeURIComponent(encodeURIComponent(s))` is s for every string |
| JsString.JoinSplit | back-end/src/auth/auth.service.ts:72-73 | joining the parts of `split(sep)` with sep gives the string back |
| AuthController.GetRedirectUri | back-end/src/auth/auth.controller.ts:19-29 | never empty; a non-empty string state is decoded, or kept as it is when decoding fails; any other state gives the default deep link |
| AuthController.GoogleStateRoundTrip | back-end/src/auth/auth.controller.ts:96 | the redirect the Google guard puts in `state` comes back from the callback unchanged |
| AuthController.MalformedStateKeptRaw | back-end/src/auth/auth.controller.ts:24-26 | a state with a broken escape is used as the redirect verbatim |
| AuthController.RedirectUrl | back-end/src/auth/auth.controller.ts:97 | the redirect is the base, then exactly '?token=', then the token, unencoded |
| AuthController.LoginEndpoint | back-end/src/auth/auth.controller.ts:36-47 | success only for a stored account whose hash verifies the password, answered with its token and the hash-free user; with unique e-mails, 401 'Invalid credentials' exactly when no such account verifies |
| AuthController.RegisterThenLogin | back-end/src/auth/auth.controller.ts:36-55 | after registering, login with the same credentials succeeds, with the token the registration answer carried |
| AuthController.CookieRedirectBase | back-end/src/auth/auth.controller.ts:128 | a non-empty string cookie is the base, any other truthy cookie (a `j:` JSON object) is its rendered string; a missing or falsy cookie gives the default deep link |
| AuthController.Controller.StartCookieLogin | back-end/src/auth/auth.controller.ts:108-113 | the handler body as intended to run: a truthy redirect is stored in an http-only `oauth_redirect` cookie for 600000 ms; otherwise the cookies are unchanged |
| AuthController.Controller.GuardedStartCookieLogin | back-end/src/auth/auth.controller.ts:106-113 | as routed, the passport guard answers with the redirect to the provider and the handler does not run: the cookies are unchanged |
| AuthController.Controller.CookieCallback | back-end/src/auth/auth.controller.ts:125-132 | the store follows `SocialUpsert`; on success the app is sent to the cookie's base (or the default) with the token, and the cookie is cleared; on failure the browser is unchanged; the store's next id follows `SocialUpsert` too |
| AuthController.Controller.GoogleCallback | back-end/src/auth/auth.controller.ts:92-102 | the store follows `SocialUpsert`; on success the app is sent to the redirect recovered from `state` with the token; cookies are untouched; the store's next id follows `SocialUpsert` too |
| AuthController.CookieLoginRoundTrip | back-end/src/auth/auth.controller.ts:108-132 | the intended flow: once the start handler has stored a non-empty redirect, completing the login returns the app to that redirect, and the cookie is gone |
| AuthController.RoutedCookieLoginRoundTrip | back-end/src/auth/auth.controller.ts:106-132 | as routed, a successful Facebook or Apple login always lands on the default deep link, never on another redirect the app asked for |
| GoogleAuthGuard.GetAuthenticateOptions | back-end/src/auth/guards/google-auth.guard.ts:6-15 | a state is set exactly for a non-empty string redirect; it is never shorter than the redirect and holds only unreserved characters and '%' |
| GoogleAuthGuard.StateDecodesToRedirect | back-end/src/auth/guards/google-auth.guard.ts:10-12 | the state decodes back to the redirect |
| RolesGuard.Includes | back-end/src/auth/guards/roles.guard.ts:20 | true exactly when some entry equals the role |
| RolesGuard.CanActivate | back-end/src/auth/guards/roles.guard.ts:10-21 | no role metadata admits every request; otherwise a user must be present and their role listed |
| RolesGuard.EmptyRequiredDeniesAll | back-end/src/auth/guards/roles.guard.ts:17-20 | an empty role list admits nobody, unlike a missing one |
| RolesGuard.MissingUserDenied | back-end/src/auth/guards/roles.guard.ts:20 | with role metadata, a request without a user is refused |
| RolesGuard.MoreRolesKeepGrant | back-end/src/auth/guards/roles.guard.ts:20 | adding roles to the list, before or after, never revokes a grant |
| AppleStrategy.Validate | back-end/src/auth/strategies/apple.strategy.ts:49-66 | id and e-mail come from the id token (no e-mail entry when it is absent or empty); no photos; without a name the display name is '', with one it is `first + ' ' + last` (missing parts as '') trimmed |
| AppleStrategy.NamesRoundTrip | back-end/src/auth/strategies/apple.strategy.ts:57-64 | first and last name, single words, come out of `socialLogin` as the same first and last name |
| AppleStrategy.LastNameOnlyBecomesFirstName | back-end/src/auth/strategies/apple.strategy.ts:60-62 | with only a last name, the account stores it as its first name and '' as its last |
| AppleStrategy.FirstNameOnlyKeepsIt | back-end/src/auth/strategies/apple.strategy.ts:60-62 | with only a first name, a single word, the account stores it as its first name and '' as its last |
| AppleStrategy.MultiWordFirstNameShifts | back-end/src/auth/strategies/apple.strategy.ts:60-62 | a two-word first name is split again: the account's first name is its first word and its last name the second word, a space and the last name |
| AppleStrategy.NoNameGivesEmptyNames | back-end/src/auth/strategies/apple.strategy.ts:60-62 | without a name, both stored names are '' |
| AppleStrategy.Configure | back-end/src/auth/strategies/apple.strategy.ts:9-47 | disabled, it always succeeds with 'disabled' placeholders; enabled, it succeeds exactly when all five settings and a readable non-empty key file are present, with those values; the scope is always name and email |
| AppleStrategy.MissingKeyFileThrows | back-end/src/auth/strategies/apple.strategy.ts:17-19 | enabled with a missing key file, it throws whatever else is configured |
| DtoCommon.TrimTransform | back-end/src/auth/dto/register.dto.ts:13 | a string comes out trimmed and no longer; any other value passes through |
| DtoCommon.EmailTransform | back-end/src/auth/dto/login.dto.ts:5 | a string comes out trimmed and lower-case; any other value passes through |
| DtoCommon.EmailTransformIdempotent | back-end/src/auth/dto/login.dto.ts:5 | applying the e-mail transform twice equals applying it once |
| DtoCommon.TrimTransformIdempotent | back-end/src/auth/dto/reset-password.dto.ts:5 | applying the trim transform twice equals applying it once |
| DtoCommon.ValidatorLength | back-end/src/auth/dto/login.dto.ts:10 | the `MinLength` count never exceeds the string's code points, and equals it without variation selectors |
| LoginDto.Validate | back-end/src/auth/dto/login.dto.ts:4-12 | accepted exactly when both fields are strings, the transformed e-mail is an e-mail and the password reaches length 6; the e-mail is stored transformed and the password as sent |
| LoginDto.ValidatedIsFixedPoint | back-end/src/auth/dto/login.dto.ts:4-12 | a validated login body validates again to itself |
| RegisterDto.Validate | back-end/src/auth/dto/register.dto.ts:4-22 | accepted exactly when all four fields are strings, the e-mail rule and password length hold, and both trimmed names reach length 1; the names are stored trimmed and non-empty |
| RegisterDto.BlankNameRejected | back-end/src/auth/dto/register.dto.ts:13-21 | a name of white space only is rejected |
| RegisterDto.ValidatedIsFixedPoint | back-end/src/auth/dto/register.dto.ts:4-22 | a validated registration body validates again to itself |
| ForgotPasswordDto.Validate | back-end/src/auth/dto/forgot-password.dto.ts:4-8 | accepted exactly for a string whose trimmed lower-case form is an e-mail, which is what is stored |
| ForgotPasswordDto.SpellingsAgree | back-end/src/auth/dto/forgot-password.dto.ts:5 | an address with white space added around it and its ASCII letters re-cased validates to the same email as the address itself |
| ForgotPasswordDto.ValidatedIsFixedPoint | back-end/src/auth/dto/forgot-password.dto.ts:4-8 | a validated e-mail validates again to itself |
| ResetPasswordDto.Validate | back-end/src/auth/dto/reset-password.dto.ts:4-13 | accepted exactly when the trimmed token reaches length 1 and the new password length 6, by the validator's count; the token is stored trimmed (so never empty) |
| ResetPasswordDto.BlankTokenRejected | back-end/src/auth/dto/reset-password.dto.ts:5-8 | a token of white space only is rejected |
| ResetPasswordDto.ServiceHashesSameToken | back-end/src/auth/auth.service.ts:116 | the service's own trim of an already trimmed token hashes the same code |
| AuthContext.UpToAmp | front-end/src/context/AuthContext.tsx:92 | the capture is the longest prefix without '&', ending at '&' or the end |
| AuthContext.TokenMatchFrom | front-end/src/context/AuthContext.tsx:92-96 | no match means no token parameter anywhere after the start; a capture is non-empty and holds no '&' |
| AuthContext.TokenMatchFirst | front-end/src/context/AuthContext.tsx:92 | the leftmost match wins |
| AuthContext.IssuedTokenReachesApp | front-end/src/context/AuthContext.tsx:92-98 | the redirect the back end builds gives the app back exactly the token issued, when the base has no '?' or '&' |
| AuthContext.SocialAuthUrl | front-end/src/context/AuthContext.tsx:186-191 | the URL begins with the provider's start route and its `?redirect=`, and is at least as long as that prefix plus the redirect |
| AuthContext.SocialAuthUrlCarriesRedirect | front-end/src/context/AuthContext.tsx:189-191 | the encoded redirect holds no '&', '#' or '+' and decodes back to the redirect |
| AuthContext.Session.constructor | front-end/src/context/AuthContext.tsx:63-67 | a new provider has no user or token, is loading and handles no deep link |
| AuthContext.Session.Restore | front-end/src/context/AuthContext.tsx:70-86 | a non-empty stored token with a profile signs in; a failed fetch clears storage; no token changes nothing; loading ends in every case |
| AuthContext.Session.BeginDeepLink | front-end/src/context/AuthContext.tsx:89-117 | no token: ignored; undecodable: nothing changes; dropped while another link is in flight or when already handled; otherwise the decoded token is stored, set and marked in flight |
| AuthContext.Session.FinishDeepLink | front-end/src/context/AuthContext.tsx:117-130 | a profile signs in and records the token as handled; a failure clears storage but keeps the token; the link is no longer in flight |
| AuthContext.Session.Adopt | front-end/src/context/AuthContext.tsx:147-150 | token stored and set, user set; authenticated exactly when the token is non-empty |
| AuthContext.Session.SignIn | front-end/src/context/AuthContext.tsx:142-177 | a response signs the session in; an error is passed on with the session unchanged |
| AuthContext.Session.Logout | front-end/src/context/AuthContext.tsx:179-183 | storage, token and user are cleared, so the session is not authenticated; the handled-token guard stays |
| AuthContext.DeepLinkTwice | front-end/src/context/AuthContext.tsx:101-119 | after a deep link is handled to the end, the same link is dropped as already handled and the session stays signed in |
| AppShell.ErrorText | front-end/src/screens/auth/LoginScreen.tsx:33-34 | a missing or empty server message gives the fallback; a list gives its first entry, or nothing when empty |
| AppShell.Device.ShowError | front-end/src/screens/auth/LoginScreen.tsx:17 | exactly one error alert is added and nothing else changes |
| AppShell.Device.EnterApp | front-end/src/screens/auth/LoginScreen.tsx:27-30 | the token is stored and the app is on the main tabs; alerts unchanged |
| LoginScreen.LoginCheck | front-end/src/screens/auth/LoginScreen.tsx:16-19 | passes exactly when both fields are non-empty |
| LoginScreen.HandleLogin | front-end/src/screens/auth/LoginScreen.tsx:15-38 | a blank field alerts and calls nothing; success stores the token and enters the app; failure alerts the server's message or 'Login failed'; loading ends false |
| SignupScreen.SignupCheck | front-end/src/screens/auth/SignupScreen.tsx:37-45 | any empty required field is reported first; otherwise it passes exactly when the terms are accepted |
| SignupScreen.AsWrittenLosesLastName | front-end/src/screens/auth/SignupScreen.tsx:50-51 | as written, the stored account's first name is 'first last' and its last name is '' |
| SignupScreen.IntendedBodyKeepsNames | front-end/src/services/api.ts:29-30 | with each name in its own field, the stored account has the typed first and last name, the e-mail and role 'user' |
| SignupScreen.HandleSignup | front-end/src/screens/auth/SignupScreen.tsx:36-66 | a failed check alerts and sends nothing; otherwise the body is sent, and either failure alerts its message or 'Registration failed', or the login token is stored and the app entered; loading ends false |
| ResetPasswordScreen.ResetPasswordCheck | front-end/src/screens/auth/ResetPasswordScreen.tsx:13-26 | each message is reported exactly when the earlier checks pass and its own fails: empty field, mismatch, fewer than 6 UTF-16 units |
| ResetPasswordScreen.HandleResetPassword | front-end/src/screens/auth/ResetPasswordScreen.tsx:12-45 | an error alert, or the success alert whose OK leads to Login; nothing is stored or sent |
| ApiConfig.GetApiBaseUrl | front-end/src/config/api.ts:10-32 | never empty; a non-empty environment URL wins; otherwise the emulator alias on Android and localhost elsewhere |
| ApiConfig.EnvironmentOverridesPlatform | front-end/src/config/api.ts:14-17 | with the environment URL set, the platform does not matter |
| AddReportScreen.FilterRemovesAt | front-end/src/screens/main/AddReportScreen.tsx:31-33 | filtering by index removes exactly that element, and an index out of range removes nothing |
| AddReportScreen.ReportForm.constructor | front-end/src/screens/main/AddReportScreen.tsx:18-22 | the form starts on 'Not accessible', closed, with the tag 'Steps' and empty inputs |
| AddReportScreen.ReportForm.ToggleDropdown | front-end/src/screens/main/AddReportScreen.tsx:69 | the dropdown flips and nothing else changes |
| AddReportScreen.ReportForm.SelectCategory | front-end/src/screens/main/AddReportScreen.tsx:81-84 | the chosen category is set and the dropdown closes |
| AddReportScreen.ReportForm.SetTagInput | front-end/src/screens/main/AddReportScreen.tsx:112 | the tag input becomes the text and nothing else changes |
| AddReportScreen.ReportForm.AddTag | front-end/src/screens/main/AddReportScreen.tsx:24-29 | non-blank input appends its trimmed form and clears the input; blank input changes nothing |
| AddReportScreen.ReportForm.RemoveTag | front-end/src/screens/main/AddReportScreen.tsx:31-33 | the tag at the index is removed; an index out of range leaves the tags as they were |
| AccessibilitySettingsScreen.Toggled | front-end/src/screens/main/AccessibilitySettingsScreen.tsx:31-33 | the switch flips (an unknown one becomes true) and every other setting is kept |
| AccessibilitySettingsScreen.ToggleTwice | front-end/src/screens/main/AccessibilitySettingsScreen.tsx:31-33 | toggling a known switch twice restores the settings |
| AccessibilitySettingsScreen.ToggleTwiceUnknown | front-end/src/screens/main/AccessibilitySettingsScreen.tsx:31-33 | toggling an unknown switch twice leaves it present and false |
| AccessibilitySettingsScreen.AccessibilitySettings.constructor | front-end/src/screens/main/AccessibilitySettingsScreen.tsx:24-29 | the four switches start with only haptic feedback on |
| AccessibilitySettingsScreen.AccessibilitySettings.ToggleSwitch | front-end/src/screens/main/AccessibilitySettingsScreen.tsx:31-33 | the new settings are `Toggled` of the old |

## Left out

- bcrypt, SHA-256, JWT signing and `randomBytes` are parameters (`Crypto.Primitives`, salts, random bytes). Only "compare accepts its own hash" is assumed of them.
- The clock is a parameter (`now`). `Date` values are integers of milliseconds.
- The SMTP transport is the `Mailer` outbox, and its outcome is a parameter. The mail text and HTML are not modelled.
- The passport handshakes, the Google and Facebook strategies' own code, and `JwtStrategy` are left out. The guards' hand-off to the provider is a redirect to a URL given as a parameter. `getMe` only echoes the user the JWT strategy attached.
- The register, forgot-password and reset-password routes only pass the body on. They are modelled through the service methods they call.
- Concurrency is left out. `handleDeepLink` is split at its one await that matters (`BeginDeepLink` / `FinishDeepLink`). Other awaits are taken as atomic.
- `JsString.ToLower` folds ASCII letters only; non-ASCII case mapping is left out.
- `isEmail` is a parameter of the DTO validators. The validator library's e-mail grammar is left out.
- The DTOs run no transform or validation on any route, because no validation pipe is installed. They are modelled on their own, not wired into the controller.
- Cookie expiry, signing and serialization are left out. A query value that is an array or object is modelled only by its rendered string (`Http.QueryValue`).
- Express's query-string decoding is left out. The controller sees already-decoded query values.
- SecureStore failures are left out, and so is a response without `access_token`.
- `fs.existsSync` and `readFileSync` are one partial function `readFile`. Read errors other than "no such file" are left out.
- Mongoose strict mode drops fields the schema does not declare (names, provider, reset fields). The model keeps them all, as the service code expects.
- Ids are natural numbers, not ObjectId strings.
- `findById` with a malformed id string is not modelled.
- UI layout, navigation animation and the forgot-password screen (a stub) are left out. So are the phone and country-code fields of the sign-up form and the description setter of the add-report screen.
- The add-report screen never submits the report, so only its form state is modelled.
- UsersService.SocialUpsert, UsersService.SocialUpsertCreates: the create step (back-end/src/users/users.service.ts:73-80) succeeds in the model unless the e-mail is taken. The required-`passwordHash` rule of the declared schema would refuse that document, so as written a first-time social sign-up throws and stores nothing; schema validation on save is not modelled.
- AuthService.ValidateUser, AuthService.Authenticator.Register, AuthService.Authenticator.ForgotPassword, AuthService.Authenticator.ResetPassword, AuthController.LoginEndpoint: request fields are taken to be strings. A missing or non-string field is not modelled: `bcrypt.compare` on undefined throws, `token.trim()` on a non-string throws, and an object such as `{"$ne": ""}` acts as a MongoDB query operator. No validation pipe rejects them first.
- AuthController.Controller.StartCookieLogin, AuthController.CookieLoginRoundTrip: model the start handler's body as if it ran. As routed, passport's guard redirects to the provider first and the handler never runs; `GuardedStartCookieLogin` and `RoutedCookieLoginRoundTrip` model that, see Findings.
- `SignupScreen.HandleSignup`: sends the corrected body (`RegisterBodyOf`), not the body the screen sends as written; see Findings.

## Findings

| source | as written | input that shows it | evidently intended | confidence | as-written member | corrected member |
|---|---|---|---|---|---|---|
| front-end/src/screens/auth/SignupScreen.tsx:50-51 | `authApi.register(email, password, fullName)` passes the full name as `firstName` and no `lastName` (front-end/src/services/api.ts:29-30 takes four parameters) | first name "Ada", last name "Lovelace": the request body sent is `firstName: "Ada Lovelace"` with no `lastName` | send `firstName` and `lastName` separately, as the API function's signature asks | high (not executed) | SignupScreen.AsWrittenLosesLastName | SignupScreen.IntendedBodyKeepsNames |
| back-end/src/auth/auth.controller.ts:106-113 | `@UseGuards(AuthGuard('facebook'))` (and `'apple'`, lines 136-143) sits on the start route, so passport redirects to the provider before the handler that stores the `oauth_redirect` cookie runs | start a Facebook login with `redirect` = "myapp://done" and complete it: the callback finds no cookie and redirects to the default deep link with the token | store the redirect before the hand-off (for example in the OAuth `state`, as the Google route does), so the callback returns to the app's redirect | medium (not executed) | AuthController.RoutedCookieLoginRoundTrip | AuthController.CookieLoginRoundTrip |
