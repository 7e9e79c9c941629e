# userme authentication core, modelled in Dafny

userme is a small identity service. It registers accounts (`PUT /user/:email`) and issues signed access and refresh tokens (`POST /token`) after one of three logins: a local password, a Facebook token, or a Google authorization code. It also refreshes a token pair (`POST /token/refresh`) and reports what a presented token says (`GET /token`).

This project models the decision logic of those handlers and how they change the users table:

- **Local password login.** It looks up an activated account, then applies the lockout gate and the exponential back-off gate. It compares the password: a wrong one bumps the wrong-password counter and stamps its date; a right one clears both. Last come the issuance gates: disabled 460, expired password 455.
- **Refresh and token info.** Both are chains of checks on the claims of an already verified token and on the account behind them.
- **Social login.** Each provider is disabled unless both client credentials are set. The login exchanges the token, resolves the provider identity (email and name required), creates the account if missing, and issues tokens. A Facebook login embeds the provider's long-lived token in the refresh token. As written, a Google login embeds nothing there, so its refresh is always refused (see Findings).
- **Registration.** The inputs are validated in a fixed order. An activated account blocks the email, and a pending one is replaced. The new account is activated at once only under the `direct` activation method; otherwise an activation token is minted.
- **Shared utilities.** This covers the claim set of a minted token, picking the key block out of a PEM file, and `toUtf8`, which reads bytes as Latin-1.

How the model is laid out:

- **The store.** The users table is a map from email (the primary key) to the account row. `Db.Store` is a class holding that map. Its methods are the single statements the handlers issue against the database.
- **Handlers that write the table.** Local login, provisioning, the two social logins, `tokenCreate` and `createUser` are methods over a `Db.Store`. Each method's postcondition equates its reply and the new table with a pure function of the old table, and the properties are lemmas about those functions.
- **Read-only handlers.** Refresh, token info and issuance are functions.
- **Issuance variants.** Issuance takes an `Issuance` value. `AsWritten` is the source's behaviour, and every handler the source has (`tokenCreate`, both logins, refresh) is modelled with it. `Corrected` also embeds a Google login's token, and only the Findings row uses it.
- **Outside answers are inputs.** `Env.World` carries the clock, store errors, bcrypt, the provider replies, signing failures and the token id.
- **Panics.** A Go type assertion on a claim of the wrong JSON type panics. gin's recovery middleware turns that into a 500, and the model answers 500 in that case.

Files: `wrappers.dfy` (Option/Result), `text.dfy` (split/join, lower-casing, Latin-1 and UTF-8), `db.dfy` (rows, lookups, column writes, `Store`), `options.dfy` (configuration and flag defaults), `env.dfy` (the outside world), `jwt.dfy` (claims), `pem.dfy` (key selection), `api_token.dfy`, `api_token_social.dfy`, `dispatch.dfy`, `api_user.dfy` (the handlers).

## Model

| member | source | states |
|---|---|---|
| Text.Split | api-token.go:266 | strings.Split always yields at least one piece, so "" splits to [""] |
| Text.SplitThenJoin | api-token.go:266 | joining the pieces of a split with the separator gives back the original string |
| Text.SplitPiecesAreSeparatorFree | api-token.go:266 | no piece of a split contains the separator |
| Text.JoinThenSplit | api-token.go:266 | splitting a join of separator-free pieces gives back exactly those pieces |
| Text.ToLowerMeaning | api-user.go:27 | lower-casing keeps the length, leaves no upper-case ASCII letter, maps A-Z to a-z and keeps every other character |
| Text.ToLowerIdempotent | api-user.go:27 | a lower-cased email lower-cases to itself |
| Text.Latin1Decode | api-token.go:333-340 | toUtf8 yields one character per byte, character i having the code of byte i |
| Text.ToUtf8 | api-token-social.go:232-239 | the rune-buffer loop produces exactly the Latin-1 reading of the bytes |
| Text.Latin1RoundTrip | api-token-social.go:232-239 | every character toUtf8 produces is below 256, and encoding them back as bytes returns the input |
| Text.ToUtf8Length | api-token-social.go:232-239 | the UTF-8 form of toUtf8's result is one byte longer than the input for each byte at or above 128 |
| Text.ToUtf8KeepsExactlyAscii | api-token-social.go:232-239 | toUtf8 leaves the bytes of a string unchanged if and only if the string is ASCII |
| Text.AsciiUnchanged | api-token-social.go:232-239 | ASCII input comes back unchanged |
| Db.First | api-token.go:239-253 | a lookup finds the row under the email exactly when it satisfies the extra condition and the store reports no error; an error is reported as such |
| Db.UpdateRow | api-token.go:204-211 | a single-column write changes only the named row and leaves an absent row absent |
| Db.Insert | api-token-social.go:254 | an insert succeeds exactly when no row has that email, adding just that row |
| Db.Remove | api-user.go:76 | an unscoped delete removes just that row |
| Db.WritesKeepKeyed | api-token.go:204-219 | every column write, insert and delete keeps each row under its own email |
| Db.Store.UpdateWrongPasswordCount | api-token.go:204 | writes the counter column of that row, or nothing when the store reports an error |
| Db.Store.UpdateWrongPasswordDate | api-token.go:208 | writes the date column of that row, or nothing on error |
| Db.Store.ResetWrongPasswordCounters | api-token.go:219 | sets the counter to 0 and clears its date, or writes nothing on error |
| Db.Store.Create | api-user.go:108 | inserts the row unless the store reports an error or the email is taken |
| Db.Store.Delete | api-user.go:76 | removes the row unless the store reports an error |
| Jwt.CreateJwtClaims | utils.go:31-45 | the claims are exactly iss "userme", sub, exp, iat, nbf, jti, scope and typ; sub, typ and scope are as passed; iat = nbf = now; exp - iat = 60 * minutes |
| Pem.FirstBlock | utils.go:55 | decoding skips to the first PEM block; there is none when only stray text remains |
| Pem.FirstWanted | utils.go:63-81 | finds the first block of a wanted type: private looks for PRIVATE KEY, EC PRIVATE KEY or RSA PRIVATE KEY; public for PUBLIC KEY or RSA PUBLIC KEY |
| Pem.ParseKeyFromPem | utils.go:47-95 | the loop's result equals SelectKey: a read error, the first wanted block's key or parse error, a decode error, or the "no block" error naming the kind |
| Pem.NoBlockLeft | utils.go:55-58 | stray text with no block after it, once no wanted block has been seen, is a decode error |
| Pem.UnwantedBlockSkipped | utils.go:86-89 | a block of another type in front changes nothing: the loop goes on with the rest |
| Pem.FirstWantedBlockDecides | utils.go:63-88 | after any prefix of unwanted blocks, the first wanted block's key or parse error is the result, whatever follows |
| Pem.NoWantedBlockNoKey | utils.go:91-94 | without a wanted block the result is an error; empty input or input ending in a block gives the error naming the kind |
| TokenApi.ValidateAndIssue | api-token.go:258-296 | the answer is 460, 455, 500 or tokens; the grant names the account and the auth type; as written, the refresh claims are empty for every auth type other than facebook |
| TokenApi.IssuanceGates | api-token.go:258-293 | disabled gives 460 first; only password logins fail on an expired password (455); tokens are issued exactly when neither gate fires and signing works; the grant names the account, carries the default scope split at commas; as written only Facebook embeds its social token (facebookToken) and Google embeds nothing; the corrected variant also embeds googleToken and agrees with the source for every other auth type |
| TokenApi.ScopeClaimRoundTrip | api-token.go:266 | the scope claim's items are comma-free and join back to the configured default scope |
| TokenApi.ProcessLocalPasswordLogin | api-token.go:167-229 | the statement-by-statement login against the store yields exactly the reply and table of LocalPasswordLogin |
| TokenApi.UnknownAccountLooksLikeWrongPassword | api-token.go:231-253 | no email gives 400, an email without an activated account 450 (the code of a wrong password), a store error 500; none writes anything |
| TokenApi.LockoutGate | api-token.go:183-189 | a locked account (date set, count at or above the maximum) gets 465 even with the right password, and nothing is written |
| TokenApi.BackoffGate | api-token.go:190-196 | inside the back-off window the answer is 450 without consulting bcrypt, and nothing is written |
| TokenApi.BackoffWindowEdges | api-token.go:190-191 | one second before date + base * 2^count the attempt is refused; at that instant it reaches the password comparison |
| TokenApi.BackoffDoubles | api-token.go:190 | each further failure doubles the back-off |
| TokenApi.WrongPasswordRecorded | api-token.go:199-216 | a wrong password gets 450, the counter goes to old + 1 (uint8) and the date to now, a write that fails is just missing, and nothing else changes |
| TokenApi.RightPasswordResets | api-token.go:218-227 | the right password clears counter and date and then issues; a failed reset gives 500 and writes nothing |
| TokenApi.LoginKeepsKeyed | api-token.go:167-229 | a login attempt keeps each row under its own email |
| TokenApi.CounterInvariants | api-token.go:183-211 | with working writes and a maximum that fits the uint8 column, "date set iff count > 0" and "count at most the maximum" hold after every attempt |
| TokenApi.ReplayKeepsKeyed | api-token.go:167-229 | any sequence of attempts keeps each row under its own email |
| TokenApi.LockoutIsSticky | api-token.go:183-189 | once locked, no sequence of login attempts by anyone changes the account's row, so it stays locked |
| TokenApi.OneMoreFailure | api-token.go:199-211 | one more wrong attempt past the back-off, below the maximum, moves the counter from k to k + 1 and dates it now |
| TokenApi.FailuresAccumulate | api-token.go:183-211 | k wrong attempts, each after the previous back-off, take a clear counter to k, dated at the last attempt |
| TokenApi.FiveFailuresLockOut | api-token.go:183-189 | with the default maximum of 5, five such failures make a sixth attempt answer 465 even with the right password |
| TokenApi.DefaultsLockOutAfterFive | api-token.go:183-196 | under the flag defaults, five wrong passwords each waiting out its back-off of 5 * 2^i seconds lock the account: the next attempt answers 465 |
| TokenApi.FacebookProfileEmail | api-token.go:298-331 | a failed profile call answers 500 or 400; any profile resolves to its email read byte by byte as Latin-1, an absent email reading as "" |
| TokenApi.TokenRefresh | api-token.go:343-434 | the answer is tokens or 400, 404, 450, 455, 460 or 500; tokens are issued only for the subject's activated, enabled account, under the auth type the token names, and a social refresh needs its social token among the claims |
| TokenApi.RefreshChecks | api-token.go:355-414 | refresh refuses a missing sub or authType with 450, no activated account with 404, and for Facebook a missing token claim or a profile email different from sub with 450 |
| TokenApi.RefreshRoundTrip | api-token.go:343-431 | presenting the refresh token of an issued grant gives back the same grant while the account stays activated and enabled; this holds as written for password and Facebook logins, and for Google only with the corrected issuance |
| TokenApi.GoogleRefreshRejectedAsWritten | api-token.go:419-426 | as written, every refresh token of a Google login is refused with 450 |
| TokenApi.TokenInfo | api-token.go:437-492 | the answer is the claims, unchanged, or 450, 455, 460 or 500; claims are answered only when sub names an enabled account |
| TokenApi.TokenInfoChecks | api-token.go:450-488 | info answers the claims unchanged exactly when sub names an enabled account, typ is present, access and refresh tokens have an activated account, and the lookup works; no enabled account gives 455, an unactivated one 460 |
| SocialApi.ProcessFacebookToken | api-token-social.go:184-230 | the profile check with the toUtf8 loop yields exactly FacebookIdentity |
| SocialApi.FacebookIdentityChecks | api-token-social.go:212-229 | a profile without email or name gives 400; otherwise the name as given and the email read byte by byte as Latin-1 |
| SocialApi.GoogleIdentityChecks | api-token-social.go:134-182 | the identity resolves exactly when an access token and then an email and a name come back, and is then exactly those; a missing access token ends without a response |
| SocialApi.ProcessCreateActivatedUserIfNeeded | api-token-social.go:241-264 | the insert-if-absent against the store yields exactly CreateActivatedUserIfNeeded |
| SocialApi.ProvisionInsertsOnlyIfAbsent | api-token-social.go:241-264 | an absent email gets exactly one new row (given name and email, enabled, activated now, clear counters), a failed insert gives false and no change, any existing row or lookup error leaves the table alone |
| SocialApi.FinishSocialLogin | api-token-social.go:66-77 | provisioning, the activated-account lookup and issuance (of the given variant) yield exactly ProvisionAndIssue |
| SocialApi.ProcessFacebookLogin | api-token-social.go:14-79 | the Facebook login against the store yields exactly FacebookLogin |
| SocialApi.ProcessGoogleLogin | api-token-social.go:81-132 | the Google login against the store yields exactly GoogleLogin for the same issuance variant; the source's handler is the AsWritten one |
| SocialApi.DisabledProviderRefused | api-token-social.go:17-21 | with a client id or secret missing, the login answers 400 and writes nothing, whatever the provider would say |
| SocialApi.FacebookLoginOnlyProvisions | api-token-social.go:60-70 | the only possible table change is the new row for the resolved identity's previously absent email; every earlier failure changes nothing |
| SocialApi.GoogleLoginOnlyProvisions | api-token-social.go:111-120 | the same for Google |
| SocialApi.PendingAccountStaysPending | api-token-social.go:241-264 | a Facebook login for an email with a pending registration answers 450 and does not activate it |
| SocialApi.FacebookEmbedsLongLivedToken | api-token-social.go:50-77 | on success the grant is for the profile's email and embeds the exchange's access_token; the short-lived token plays no further part |
| SocialApi.GoogleEmbedsRefreshToken | api-token-social.go:102-128 | on success the grant is for the profile's email with auth type google; as written its refresh claims are empty; with the corrected issuance they hold the code exchange's refresh_token |
| SocialApi.FacebookLoginThenRefresh | api-token-social.go:14-79 | refreshing after a Facebook login gives back the same grant while Facebook still resolves the same profile |
| SocialApi.GoogleLoginThenRefresh | api-token-social.go:81-132 | as written, refreshing after a Google login answers 450; with the corrected issuance it gives back the same grant |
| TokenEndpoint.ProcessTokenCreate | api-token.go:24-52 | dispatching against the store yields exactly TokenCreate, whose Google branch uses the issuance as written |
| TokenEndpoint.DispatchPrecedence | api-token.go:31-50 | an unparsable body gives 400; facebookToken wins over googleToken and the password; googleToken wins over the password |
| TokenEndpoint.SocialBodiesSkipPasswordPath | api-token.go:38-48 | with a social token in the body, the password plays no part and no existing row changes |
| UserApi.ProcessCreateUser | api-user.go:22-141 | the registration against the store yields exactly CreateUser's reply, table and activation token |
| UserApi.ValidationOrder | api-user.go:27-63 | an unparsable body gives 400; the path email, lower-cased, overrides the body's; then email 450, name 450, password 460, first failure decides, nothing written |
| UserApi.DuplicateRefused | api-user.go:66-73 | an email with an activated account gives 455 and nothing changes |
| UserApi.RegistrationOutcome | api-user.go:75-123 | a successful registration writes exactly one row under the lower-cased email, replacing a pending one: enabled, named, holding the generated hash dated now, activated now iff "direct"; "direct" answers 201, otherwise a 5-minute "activate-user" token for the email is minted |
| UserApi.FailureAfterDeletionKeepsIt | api-user.go:76-114 | a hashing or insert failure after the pending row was deleted gives 500 and the row stays deleted |
| UserApi.PendingAccountTokenTypes | api-token.go:466-480 | after a registration that waits for activation, the info endpoint answers the activation token's claims unchanged but refuses an access or refresh token for the same email with 460 |
| UserApi.RegisterThenLogin | api-user.go:95-120 | after a "direct" registration, a password login with the same password issues tokens for that email |

## Left out

- Signing and verifying tokens (`createAccessAndRefreshToken`, `loadAndValidateToken`) are not part of this model. Refresh and info take the claims of an already verified token, or None when verification failed. A signing failure is an input.
- TokenApi.RefreshTokenClaims assumes that `createAccessAndRefreshToken` signs a refresh token with `createJWTToken`'s claims of type "refresh", the `authType` claim and the custom refresh claims. Its source is not part of this model.
- TokenApi.Backoff computes `base * 2^count` exactly. The source uses float64 `math.Pow` and converts the result to a nanosecond `time.Duration`. That conversion overflows for counts of about 31 and up with the default base, and such counts are reachable only when the maximum is set above 31.
- TokenApi.CounterInvariants holds only when both counter writes succeed. A failed date write after a successful counter write leaves a positive count without a date, and then the lockout gate is skipped.
- Text.ToLower lower-cases ASCII letters only. Go's `strings.ToLower` also folds other Unicode letters.
- UserApi.ValidationFailure takes the email regular expression as a predicate, `Options.emailPattern`. The source hard-codes that expression at api-user.go:44; it is not configuration. The password expression is the configured `opt.passwordValidationRegex`, also a predicate here (`Options.passwordValidationPattern`). The name rule `^.{4,}$` is written out.
- Db.Store.ResetWrongPasswordCounters assumes that `resetWrongPasswordCounters` sets the counter to 0 and clears its date in one write that either fully succeeds or changes nothing. api-token.go:219 only calls it; its body is not part of this model.
- TokenApi.ActivatedAccount models both `processUserActivated` (api-token.go:231-253) and `processValidateUserActivated`, which the social logins call at api-token-social.go:72 and :123. The latter's body is not part of this model; it is taken to look up the activated account by email as the former does.
- UserApi.ActivationClaims fills the scope claim with "". api-user.go:123 calls `createJWTToken` with three arguments, while utils.go:31 declares four, so the source as given does not compile; the model assumes an empty scope.
- bcrypt hashing and comparison, the Facebook and Google HTTP calls, the clock and the token id (uuid) are inputs. Non-string values in a provider's JSON answer are not modelled.
- A request body that is not a JSON object of strings is None.
- UserApi.CreateUser assumes the existence lookup succeeds. On a store error the source carries on with a zero-valued row.
- Sending the activation mail (api-user.go:131-140) and templating its HTML body are not part of this model. The model returns the activation token's claims and writes no response, as the source does. The source passes `sendMail`'s arguments in a different order from its parameters (subject, body, recipient), and the model does not capture that.
- The older `processFacebookLogin` and `processFacebookToken` in api-token.go:66-165 and the Google stub in api-token.go:54-64 are not modelled, because the api-token-social.go versions replace them. The refresh path uses api-token.go's `processFacebookToken`, which reads an absent email as "": see `TokenApi.FacebookProfileEmail`.
- Concurrent requests, including the read-then-write race on the wrong-password counter, are out of scope. Attempts are sequential.
- Not modelled: the gin routing, CORS, Prometheus counters, logging, main.go flag parsing and the database connection. The flag defaults appear as constants in `Options`.

## Findings

| source | as written | input that shows it | evidently intended | confidence | as-written member | corrected member |
|---|---|---|---|---|---|---|
| api-token.go:279-281 | only authType "facebook" puts its social token into the refresh claims | a Google login (api-token-social.go:128) followed by POST /token/refresh with the refresh token it returned: api-token.go:419-426 finds no googleToken claim and answers 450 | a Google login embeds its refresh token as googleToken, so refreshing re-issues the grant (`TokenApi.RefreshCustomClaims` with `Corrected`) | medium (depends on the unseen `createAccessAndRefreshToken` not adding it itself); not executed | TokenApi.GoogleRefreshRejectedAsWritten | TokenApi.RefreshRoundTrip |
