# One-time SSO token handoff between two Laravel applications

This project models the single sign-on logic of `AuthController`. Two cooperating
web applications share one secret. After a local login, an application issues a
one-time token. The token is stored in its `sso_tokens` table and expires after
5 minutes. The application then redirects the browser to the partner's
`/sso/callback`, passing the token, its own base URL as `issuer`, and a
`return_to` destination. The partner posts the token and the shared secret to
the issuer's `/api/sso/validate`. The issuer checks the secret, finds an unused
and unexpired row, marks it used, and answers with the stored email and name.
The partner then finds or creates that user by email, logs them in, and
redirects to `return_to`. Logout hands the browser to the partner's
`/sso/logout`. After registration, the user is pushed to the partner's
`/api/sso/sync-user`.

Modules:

- `TokenStore` (`token_store.dfy`): the token row, the table keyed by its unique
  token, the expiry sweep, issuing (`createSsoToken`) and validating
  (`apiSsoValidate`), with the one-call properties.
- `Users` (`users.dfy`): the user table keyed by email, `firstOrCreate`, and
  `apiSyncUser`.
- `Redirects` (`redirects.dfy`): redirect targets as values. A URL with a query
  keeps its parameters, so what the receiver reads back is a function of them.
  PHP truthiness of nullable strings is also here.
- `Handoff` (`handoff.dfy`): configuration, one application's state, and the
  decision functions for `ssoCallback`, `redirectThroughPartner`, `dashboard`,
  `logout`, `ssoLogout` and `syncUserToPartner`. It also composes two
  applications into a full login handoff and a full logout.
- `Trace` (`trace.dfy`): sequences of issue and validate requests. Over them it
  proves that a token is redeemed at most once.
- `Controller` (`auth_controller.dfy`): the class `AuthController`, whose fields
  `tokens`, `users` and `session` are updated in place by its handlers. Each
  handler is proved equal to its function above and keeps the tables consistent.

Conventions:

- Time is a natural number of seconds, and `now` is an input.
- The shared secret, both base URLs and the `dashboard`/`login` route URLs are
  fixed constructor values (`Config`).
- Absent request parameters are `None`.
- The validator requires `expires_at > now` (strict). The sweep deletes only
  `expires_at < now` (also strict). So a row with `expires_at == now` is kept
  but cannot be redeemed (`TokenStore.ExpiryBoundary`).
- If the random token collides with a row that survived the sweep, the insert
  violates the unique index (migration line 12). The request then fails with
  `StoreFailure`, and the sweep has already happened.
- `return_to` is used as given, without checking where it points. The model
  keeps this behaviour.
- `issuer` is also used as given: `ssoCallback` posts the shared secret to
  `issuer + "/api/sso/validate"` for whatever host the query names, and trusts
  the identity that host returns (`Handoff.ValidationCall`, `Handoff.Callback`).

The code makes these choices, and the model keeps them:

- Validation reads the row and then updates it in a separate statement. It is
  not an atomic conditional update.
- The secret is compared with `!==`, not in constant time.
- `firstOrCreate` is a read followed by an insert.
- A callback whose validation is refused (a 401 response) is not logged. Only
  exceptions are logged.

## Model

| member | source | states |
|---|---|---|
| TokenStore.Sweep | app/Http/Controllers/AuthController.php:276 | exactly the rows with `expires_at < now` are removed; every other row survives unchanged; token uniqueness is kept |
| TokenStore.Issue | app/Http/Controllers/AuthController.php:273-288 | succeeds iff the generated token is not in the swept table; the new row carries the user's email and name, is redeemable at every time before `now + 300` and not at `now + 300`; all other rows are the swept rows, unchanged; on collision the table is the swept table |
| TokenStore.Validate | app/Http/Controllers/AuthController.php:218-242 | 401 "Unauthorized" iff the presented secret is not the configured one; success iff the secret matches and a row with that token is unused and has `expires_at > now`; every failure leaves the table unchanged; success returns the row's email and name and flips only that row's `is_used`, after which it is not redeemable; status 200 iff success; the error message is "Unauthorized" exactly on a secret mismatch and "Invalid or expired token" exactly on a failed lookup with the right secret |
| TokenStore.WrongSecretKeepsToken | app/Http/Controllers/AuthController.php:220-222 | a wrong or missing secret answers Unauthorized and changes nothing, and the token then still validates with the right secret |
| TokenStore.ExpiredNeverValidates | app/Http/Controllers/AuthController.php:224-231 | a row whose expiry is not after `now` never validates and the table is unchanged |
| TokenStore.ExpiryBoundary | app/Http/Controllers/AuthController.php:276 | a row expiring exactly at `now` survives the sweep and yet is not redeemable at `now` |
| TokenStore.ValidateTwice | app/Http/Controllers/AuthController.php:224-233 | after a successful validation of a token, a second validation of it fails with any secret at any time and changes nothing |
| TokenStore.IssueThenValidate | app/Http/Controllers/AuthController.php:280-285 | a token issued for {email, name} validates, with the right secret at any time before expiry, to exactly {email, name} |
| Trace.Replay | database/migrations/2024_01_02_000001_create_sso_tokens_table.php:12 | any sequence of issue and validate requests keeps every row stored under its own, unique token |
| Trace.StepKeepsSpent | app/Http/Controllers/AuthController.php:224-233 | a used or deleted token stays so through any one request that does not issue that very token |
| Trace.SpentStaysSpent | app/Http/Controllers/AuthController.php:224-233 | a used or deleted token stays so through any requests that do not reissue it, and none of them validates it |
| Trace.RedeemedAtMostOnce | app/Http/Controllers/AuthController.php:224-233 | in any sequence of requests that never reissues a token, that token validates successfully at most once |
| Trace.SingleUse | app/Http/Controllers/AuthController.php:225-233 | after a token validated once, any later validation of it fails, whatever the time, the secret and the requests between |
| Users.FirstOrCreate | app/Http/Controllers/AuthController.php:175-178 | an existing user is returned and the table is unchanged; otherwise exactly one user is added with the given email, name and password; no existing record is changed; emails stay unique |
| Users.FirstOrCreateTwice | app/Http/Controllers/AuthController.php:253-259 | a second find-or-create for the same email, with any name and password, adds nothing and returns the record of the first |
| Users.SyncUser | app/Http/Controllers/AuthController.php:247-262 | 401 iff the secret does not match, and then nothing is created; with the secret the email is present afterwards, a new record carries the given name and password hash, and existing records are never changed |
| Redirects.QueryValue | app/Http/Controllers/AuthController.php:155-157 | the value read for a key is absent iff no parameter has that key, and otherwise is the value of the last parameter with that key |
| Redirects.CallbackLink | app/Http/Controllers/AuthController.php:304-308 | the link targets the partner's `/sso/callback` and reads back exactly the given token, issuer and return destination |
| Redirects.LogoutLink | app/Http/Controllers/AuthController.php:137-139 | the link targets the partner's `/sso/logout` and reads back the given `return_to` and no token |
| Handoff.ReplyOf | app/Http/Controllers/AuthController.php:172 | the caller sees a confirmed identity iff the issuer answered 200, and then exactly the identity the issuer returned |
| Handoff.ValidationCall | app/Http/Controllers/AuthController.php:164-170 | a validation request is sent iff there is no session and token and issuer are both truthy; it goes to `issuer + "/api/sso/validate"` and carries the token and the configured secret |
| Handoff.Callback | app/Http/Controllers/AuthController.php:153-189 | always redirects to `return_to`, defaulting to the dashboard; with a session nothing is sent and nothing changes; without a confirmed validation nothing changes; on confirmation the user is found or created by email and becomes the session; tokens never change; consistency is kept |
| Handoff.RedirectThroughPartner | app/Http/Controllers/AuthController.php:294-309 | without a truthy partner URL, goes straight to the destination with "Login successful!" and changes nothing; otherwise issues a token and redirects to the partner callback link naming this app as issuer, or fails on a token collision |
| Handoff.Dashboard | app/Http/Controllers/AuthController.php:50-64 | issues a token for the logged-in user; the link reads back that token, this app as issuer and the partner's dashboard as `return_to`, concatenated onto the partner URL even when it is null |
| Handoff.Logout | app/Http/Controllers/AuthController.php:129-143 | the session ends and the tables are unchanged; with a truthy partner URL the browser goes to the partner's logout link with the login page as `return_to`; otherwise to the login page with "Logged out successfully." |
| Handoff.SsoLogout | app/Http/Controllers/AuthController.php:196-206 | the session ends (nothing changes when there was none) and the browser goes to `return_to` (default: login page) with "You have been logged out from both systems." |
| Handoff.SyncCallFor | app/Http/Controllers/AuthController.php:314-330 | a sync request is sent iff the partner URL is truthy; it goes to `/api/sso/sync-user` with the user's name and email, the plain password and the secret |
| Handoff.SyncLandsOnPartner | app/Http/Controllers/AuthController.php:321-326 | a sync request to a partner sharing the secret is accepted, and afterwards the partner has the user's email, as a new record with the same name or as its existing record untouched |
| Handoff.LogoutPropagates | app/Http/Controllers/AuthController.php:135-140 | logging out of one app ends the session on both, and the browser comes back to the first app's login page |
| Handoff.RelayLogsIn | app/Http/Controllers/AuthController.php:164-182 | with a shared secret, a fresh 64-character token and validation before expiry, a login handoff ends at the destination, the partner's session is the user found or created by email, and the issuer's token is consumed |
| Handoff.RelayNeedsSharedSecret | app/Http/Controllers/AuthController.php:220-222 | when the secrets differ, the handoff leaves the partner's state untouched and the issuer's token still redeemable |
| Controller.AuthController.constructor | app/Http/Controllers/AuthController.php:20-33 | configuration is fixed at construction and the initial tables are consistent |
| Controller.AuthController.CreateSsoToken | app/Http/Controllers/AuthController.php:273-288 | the token table becomes what `Issue` gives, and nothing else changes |
| Controller.AuthController.ApiSsoValidate | app/Http/Controllers/AuthController.php:218-242 | answer and token table are those of `Validate`, and the user table and session are untouched |
| Controller.AuthController.FirstOrCreateUser | app/Http/Controllers/AuthController.php:253-259 | the user table and the returned user are those of `FirstOrCreate`, and nothing else changes |
| Controller.AuthController.ApiSyncUser | app/Http/Controllers/AuthController.php:247-262 | answer and user table are those of `SyncUser`, and nothing else changes |
| Controller.AuthController.SsoCallback | app/Http/Controllers/AuthController.php:153-189 | outcome and new state are those of `Callback`, and consistency is kept |
| Controller.AuthController.RedirectThroughPartner | app/Http/Controllers/AuthController.php:294-309 | outcome and new state are those of `Handoff.RedirectThroughPartner` |
| Controller.AuthController.Dashboard | app/Http/Controllers/AuthController.php:50-64 | outcome and new state are those of `Handoff.Dashboard` |
| Controller.AuthController.Logout | app/Http/Controllers/AuthController.php:129-143 | redirect and new state are those of `Handoff.Logout` |
| Controller.AuthController.SsoLogout | app/Http/Controllers/AuthController.php:196-206 | redirect and new state are those of `Handoff.SsoLogout` |
| Controller.ConsumeTwice | app/Http/Controllers/AuthController.php:224-233 | on one controller, if a validation of a token succeeds then the next validation of it fails; otherwise the second sees the original table |

## Left out

- The HTTP calls (`Http::timeout(5)->post`, lines 167 and 321) are not made. The partner's answer is an input: `Confirmed`, `Refused` or `Unreachable`. Timeouts, retries and the logging of exceptions are not modelled.
- A successful answer without a `user` object (line 173) is not modelled. The reply either carries an identity or counts as refused.
- `Hash::make` and `Str::random` are inputs. The password hash is an opaque string. The generated token is an arbitrary string. Its length of 64 is assumed only where truthiness depends on it (`Handoff.RelayLogsIn`).
- Trace.SingleUse: holds under the assumption that no later request reissues the same token string. The unique index alone does not rule this out once the sweep has deleted the used row.
- Trace.RedeemedAtMostOnce: holds under the same assumption, that the token is never generated again.
- Concurrency is not modelled. The lookup (lines 224-227) and the update (line 233) are separate statements, and every property here is about requests handled one after another. No race-freedom is claimed.
- The constant-time behaviour of the secret comparison is out of scope. Only its result is modelled.
- `env(...)` (lines 20-33) and `route(...)` are replaced by `Config` values. `env` returning null or empty is kept as a falsy partner URL.
- `createSsoToken` calls `now()` twice (lines 276 and 284). The model uses one instant for both.
- `http_build_query` encoding is not modelled. A URL with a query is its base plus its parameter list.
- Session internals (`regenerate`, `invalidate`, `regenerateToken`) are left out. The session is only "which user is logged in".
- The `id`, `created_at` and `updated_at` columns are not modelled. No logic reads them.
- `login`, `register`, `showLogin` and `showRegister` are left out. They are password checking, form validation and views, and their SSO part is `redirectThroughPartner` and `syncUserToPartner`, which are modelled.
- Missing `name`, `email` or `password` fields in an `apiSyncUser` request are not modelled. The `users` table schema is not part of this model.
- Views, compiled templates and route files are left out.
