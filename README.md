# Verified model of the user-approval core of powerbi-dashboard-backend

This project models the part of the backend that decides who gets in:

- the OAuth login against Microsoft Entra ID;
- the reconciliation of the provider's profile with the `usuarios` table;
- the approval state machine (`pendiente`, `aprobado`, `rechazado`) that admins drive;
- the JWT access gate in front of every protected route;
- the older passport-based variant of the same login;
- the script that bootstraps the first administrator;
- the `SecurityChecker` that audits a deployment's configuration.

## How the system is modelled

- `usuarios` is a map from row id to `UserRecord`, plus the id the next INSERT receives (`Store.Table`).
- SQL NULL and JavaScript `undefined` are `None`. A `col = ?` comparison never matches NULL.
- `estado` and `rol` hold one of the values the code compares against, or some other text (`OtherEstado`, `OtherRol`), whose type excludes those values.
- SQLite promises no row order for a `db.get` without `ORDER BY`. The model assumes the first matching row in rowid order (see "## Left out").
- The store connection is the class `Store.UserStore`. Its methods issue one SQL statement each, and each method is proved equal to a pure function on `Table`.
- Every handler is a pure function from the old table and the request to the response and the new table, together with a method on the store proved equal to it. The properties are lemmas about those functions.
- A failing SQL statement is a boolean input, one per statement (`CallbackFaults`, `GateFaults`, …).
- A failing code exchange or profile fetch with the provider is the `ExchangeFailed` alternative of the `Routes.Exchange` input.
- A `package.json` that `JSON.parse` rejects is the `Unparseable` alternative of the `SecurityCheck.Manifest` input.
- `CURRENT_TIMESTAMP` and the JWT clock are one abstract `Time`.
- A token stands for the claims it carries. Verification is an abstract `decode` (signature check and parsing) followed by the expiry rule of section 4.1.4 of RFC 7519: a token is accepted strictly before its `exp`.
- The authorization request (section 4.1.1 of RFC 6749) is built as text, with `encodeURIComponent` modelled character by character over UTF-8.
- The token request (section 4.1.3 of RFC 6749) is a list of form fields.
- The bearer token is taken from the `Authorization` header as section 2.1 of RFC 6750 describes. The code does this by removing the first `"Bearer "`.
- The `SecurityChecker` reads files, git, the platform and `package.json`. All of these are a `Workspace` input.
- Each check's findings are a list of `Entry(level, message)`. Each method appends exactly those findings to the class's `errors`, `warnings` and `passed` lists, with the source's messages.

Five behaviours of the code that a reader of its comments or its route names might not expect. The model follows the code in each:

- Every token verification failure, expiry included, gets the same 400 "Token no válido". No answer tells an expired token apart (`Gate.ExpiredSameAsMalformed`).
- The callback's lookup and insert are two statements. When two first logins of one profile race, both can insert a row, and nothing retries or merges them.
- A returning user's `nombre`, `apellidos` and `foto_url` are never refreshed from the provider's profile. Only an empty `microsoft_id` is backfilled.
- The callback looks a profile up with one query, `microsoft_id = ? OR email = ?`. The comment at routes/auth.js:145 says microsoft_id is searched first, but the query gives it no priority. When one row has the profile's email and another its microsoft_id, the row found is the one SQLite returns first; under the model's rowid order that is the lower id (`Routes.EmailMatchCanPrecede`).
- Neither login INSERT writes `rol`: not the callback's (routes/auth.js:154-156) and not the passport strategy's (auth.js:28-31). A new user's role is therefore the column default, which lives in a schema this model does not include, so it is the store's `rolDefault`. Of the INSERTs, only the bootstrap script's writes `rol = 'admin'`. After that, an admin's role change (routes/auth.js:289-291) can set it (`Routes.ChangeRoleEffect`).

## Model

| member | source | states |
|---|---|---|
| `Store.LookupFindsFirst` | routes/auth.js:146 | A lookup finds nothing exactly when no row matches the WHERE clause. Otherwise it returns the matching row with the lowest id, as stored. |
| `Store.UpdateById` | routes/auth.js:240-249 | `this.changes` is 1 exactly when the id exists. Only that row changes: it becomes the update applied to it, keeping its id. No row is added or removed. |
| `Store.InsertKeepsWellFormed` | routes/auth.js:154-156 | An INSERT adds exactly one row under a fresh id and keeps every row filed under its own id. |
| `Store.UserStore.Get` | routes/auth.js:146 | `db.get` returns the lookup's row, which is in the table under its own id and satisfies the clause. It returns nothing only when no row satisfies it. |
| `Store.UserStore.GetById` | auth.js:53 | A lookup by primary key finds a row exactly when the id is in the table, and then it is that row. |
| `Store.UserStore.Update` | routes/auth.js:170 | `db.run` of an UPDATE leaves the table and `changes` that `UpdateById` describes. |
| `Store.UserStore.Insert` | routes/auth.js:154-161 | `db.run` of an INSERT gives the row the next id (`lastID`) and adds nothing else. |
| `Store.UserStore.ExistsApprovedAdmin` | scripts/create-admin.js:20 | True exactly when some row is an admin with estado aprobado. |
| `Users.EstadoText` | routes/auth.js:177-181 | Comparing the column's text with "pendiente", "aprobado" or "rechazado" succeeds exactly for the corresponding `Estado`. |
| `Users.RolText` | middleware/auth.js:50 | Comparing the column's text with "admin" or "usuario" succeeds exactly for the corresponding `Rol`. |
| `Users.JsOr` | routes/auth.js:106 | `a \|\| b` yields `a` when it is truthy, else `b`. It is truthy when either operand is. |
| `Tokens.Sign` | routes/auth.js:184-188 | A token carries exactly the user's id, email, estado and rol, issued now and expiring after the given lifetime. |
| `Tokens.VerifyAt` | middleware/auth.js:13 | Verification succeeds exactly when decoding succeeds and the clock is before `exp`. It then yields the decoded claims. |
| `Tokens.SignedTokenLifetime` | routes/auth.js:187 | A token signed at time t with lifetime L verifies exactly at times before t + L. |
| `OAuthLogin.AuthorizationParameters` | routes/auth.js:43-48 | For a client id without `&` (the code does not encode it), the login URL's query splits into exactly five parameters in this order: client_id, response_type=code, redirect_uri, scope, response_mode=query. Its redirect_uri and scope are the percent-encodings of the values the token request sends. For an ASCII callback URL, decoding gives the token request's redirect_uri back. |
| `OAuthLogin.BeginLogin` | routes/auth.js:37-52 | `GET /login/microsoft` redirects to a URL that starts with the tenant's authorize endpoint. When the client id has no `&`, the rest splits into exactly client_id, response_type=code, the encoded callback URL, the encoded scope, and response_mode=query, in that order. |
| `OAuthLogin.TokenRequest` | routes/auth.js:122-129 | The code-for-token POST sends six fields: the code it was given, and the same callback URL and scope the login URL carries. |
| `OAuthLogin.EncodedHasNoDelimiters` | routes/auth.js:46-47 | An encoded value never holds `&`, `=`, `?`, `#` or a space, so it cannot break the query apart. |
| `OAuthLogin.EncodeUnreserved` | routes/auth.js:47 | Text made only of unreserved characters is left unchanged by the encoder. |
| `OAuthLogin.EncodeConcat` | routes/auth.js:46 | Encoding works character by character: encoding a concatenation concatenates the encodings. |
| `OAuthLogin.DecodeEncode` | routes/auth.js:46 | Percent-decoding undoes `encodeURIComponent` on ASCII text. |
| `Gate.BearerSchemeStripped` | middleware/auth.js:6 | A header `Bearer <t>` yields exactly the token `<t>`. |
| `Gate.HeaderWithoutSchemeVerbatim` | middleware/auth.js:6 | A header without `Bearer ` is used whole as the token. |
| `Gate.VerifyToken` | middleware/auth.js:5-36 | The gate's outcome and the table afterwards are those of `Authenticate`, whose lemmas follow. |
| `Gate.MissingTokenRefused` | middleware/auth.js:8-10 | An absent or empty token gives 401 "Token no proporcionado". The store is untouched, whatever failures it would have had. |
| `Gate.ExpiredSameAsMalformed` | middleware/auth.js:12-35 | An expired token gets exactly the answer an undecodable one gets: 400 "Token no válido", with the table untouched. |
| `Gate.ClaimsSnapshotIgnored` | middleware/auth.js:14-30 | Two valid tokens for the same id get the same outcome, whatever email, estado or rol their claims carry. |
| `Gate.AdmittedIsLiveApproved` | middleware/auth.js:17-31 | An admitted request carries the token subject's live row, which is aprobado. Afterwards the table is exactly the old one with that row's `ultimo_acceso` set to now, or the old one unchanged when that UPDATE fails. |
| `Gate.StaleApprovalRefused` | middleware/auth.js:17-25 | A valid token whose subject is missing or not aprobado gets 401 "Usuario no encontrado o no aprobado", or 500 when the SELECT fails. Nothing is written, even if the claims say aprobado. |
| `Gate.LookupFailureIsServerError` | middleware/auth.js:18-21 | With a valid token, a failing SELECT gives 500 "Error interno del servidor" and writes nothing. |
| `Gate.RequireApproved` | middleware/auth.js:39-46 | Stops the chain only with a 403. |
| `Gate.RequireAdmin` | middleware/auth.js:49-54 | Stops the chain only with a 403. |
| `Gate.RequireAdminImpliesApproved` | middleware/auth.js:39-54 | `requireAdmin` passes exactly for users who have rol admin and also pass `requireApproved`. |
| `Routes.Callback` | routes/auth.js:94-203 | The callback's response and the table afterwards are those of `CallbackOutcome`, whose lemmas follow. |
| `Routes.ProviderErrorFirst` | routes/auth.js:100-108 | A provider `error` is checked before `code`: 400 with `error_description`, or `error` when the description is empty. Nothing is read or written. |
| `Routes.MissingCodeRejected` | routes/auth.js:110-113 | With no error and no code: 400, and no row is read or created. |
| `Routes.UnmatchedProfileInsertsPending` | routes/auth.js:152-166 | A profile matching no row by id or email gets the pending redirect and exactly one new pending row. The row has the profile's id, its email (`mail`, else `userPrincipalName`), names and photo. Other rows are unchanged. |
| `Routes.RepeatedCallbackInsertsNothing` | routes/auth.js:146-166 | A second callback with the same profile finds the row the first one inserted, adds nothing and redirects to pending. |
| `Routes.AnonymousProfileAlwaysInserts` | routes/auth.js:146-156 | A profile with neither id nor email matches nothing, since NULL matches nothing. Each of its callbacks inserts one more pending row. |
| `Routes.MatchedProfileOutcome` | routes/auth.js:167-196 | For a matched row, pendiente redirects to pending and rechazado to access-denied. Aprobado gets an 8-hour token of that row. Any other estado gets no response. The table changes only in that row, in two columns. `microsoft_id` is set only when it was empty and the update succeeded; a non-empty one is never overwritten. `ultimo_acceso` is set only when a token is issued. |
| `Routes.EmailMatchCanPrecede` | routes/auth.js:145-146 | Under rowid order, a row matching the profile's email with a lower id than the row holding its microsoft_id is the one found, not the microsoft_id row. |
| `Routes.BackfillFailureIgnored` | routes/auth.js:169-175 | A failed `microsoft_id` backfill does not change the response. |
| `Routes.TokenOnlyForApproved` | routes/auth.js:182-194 | A token is issued only for a row that is live-aprobado. It is signed from that row and expires 8 hours after issue. |
| `Routes.ParseRol` | routes/auth.js:285 | Only the strings "usuario" and "admin" are accepted roles. |
| `Routes.HandleAdmin` | routes/auth.js:240-304 | The handler's response and the table afterwards are those of `AdminHandler`, whose lemmas follow. |
| `Routes.AdminRequest` | routes/auth.js:237-281 | The route is `verifyToken`, then `requireAdmin`, then the handler, as `AdminRoute` states. |
| `Routes.ApproveEffect` | routes/auth.js:240-256 | Approving a known id, from any estado, sets aprobado, `fecha_aprobacion` and `aprobado_por` to the acting admin. The answer is the success message and nothing else changes. |
| `Routes.RejectEffect` | routes/auth.js:262-278 | Rejecting a known id sets rechazado and `aprobado_por`, and keeps `fecha_aprobacion`. Nothing else changes. |
| `Routes.ChangeRoleEffect` | routes/auth.js:289-304 | A valid role change sets only the target's `rol`. |
| `Routes.UnknownTargetNotFound` | routes/auth.js:249-251 | An unknown id gives 404 "Usuario no encontrado" and the table is unchanged. |
| `Routes.InvalidRolRejected` | routes/auth.js:285-287 | A role outside {usuario, admin} gives 400 before the store is touched, even if the store would fail. |
| `Routes.AdminStoreFailure` | routes/auth.js:244-247 | A failing UPDATE gives 500 and changes nothing. |
| `Routes.AdminRouteGuarded` | routes/auth.js:237-281 | The handler runs only when the caller's live row is an approved admin. Otherwise the answer is the gate's refusal or the 403, and the only write is the gate's `ultimo_acceso` touch. |
| `LegacyAuth.Init` | auth.js:10-13 | Loading fails exactly when `JWT_SECRET` is unset or empty, with the source's message. |
| `LegacyAuth.VerifyProfile` | auth.js:23-43 | The strategy callback's result and the table afterwards are those of `Strategy`. |
| `LegacyAuth.NoEmailFallback` | auth.js:26-35 | A profile whose `oid` matches no row gets one new pending row (oid, `_json.email`, `displayName`), even if another row has its email. |
| `LegacyAuth.KnownProfileUnchanged` | auth.js:36-38 | A known `oid` yields the stored row as it is, with no write. |
| `LegacyAuth.ProfileIdShadowsNewId` | auth.js:34 | In `{ id: this.lastID, ...profile }` the profile's own `id` wins over the new row's id. |
| `LegacyAuth.SessionRoundTrip` | auth.js:47-57 | For a stored user, or a new user whose profile has no id of its own, serializing to the id and deserializing loads that user's row. |
| `LegacyAuth.DeserializeUser` | auth.js:52-57 | Loads the row with that id, nothing when there is none, and an error exactly when the query fails. |
| `LegacyAuth.GenerateToken` | auth.js:68-70 | The claims are {id, email, estado, rol} with a one-hour expiry. |
| `LegacyAuth.LegacyTokenLifetimeHolds` | auth.js:69 | A legacy token verifies exactly during the hour after it was issued. |
| `LegacyAuth.LegacyTokenShorter` | auth.js:69 | The legacy token has the route's claims and expires seven hours sooner. |
| `LegacyAuth.EnsureAdmin` | auth.js:73-78 | Stops the chain only with the plain-text 403 "Acceso denegado". |
| `LegacyAuth.EnsureAdminIgnoresEstado` | auth.js:73-78 | `ensureAdmin` lets through everyone `requireAdmin` does, plus exactly the admins whose estado is not aprobado. |
| `LegacyAuth.EnsureAuthenticated` | auth.js:60-65 | Calls next exactly when the request is authenticated. Otherwise it redirects to /login. |
| `CreateAdmin.CreateInitial` | scripts/create-admin.js:6-61 | The run's result and the table afterwards are those of `CreateInitialAdmin`. |
| `CreateAdmin.GuardBlocksInsert` | scripts/create-admin.js:20-30 | With an approved admin present, or a failed lookup, nothing is inserted. |
| `CreateAdmin.CreatesTheAdmin` | scripts/create-admin.js:10-36 | Otherwise a successful run inserts exactly one row: the fixed admin, aprobado, with both dates set. `requireAdmin` accepts that row. |
| `CreateAdmin.CreateTwiceAtMostOne` | scripts/create-admin.js:20-36 | Two runs of `create`, with any failures, insert at most one row between them. |
| `CreateAdmin.Dispatch` | scripts/create-admin.js:92-106 | "create" and "list" select their commands. Anything else selects the usage text. |
| `CreateAdmin.DispatchOutcome` | scripts/create-admin.js:92-106 | The script exits with 1 exactly for an unknown command, and only `create` writes. |
| `Text.ContainsIff` | security-check.js:61 | `includes` holds exactly when the pattern occurs at some position. |
| `SecurityReport.RecordAllAppends` | security-check.js:13-15 | The lists only grow: each becomes the old list followed by the new findings at its level. |
| `SecurityReport.MessagesPartition` | security-check.js:36-45 | Every finding lands in exactly one of the three lists. |
| `SecurityReport.RecordAllCounts` | security-check.js:231-233 | The printed counts grow by exactly the number of findings. |
| `SecurityReport.RecordAllConcat` | security-check.js:271-277 | Recording one check's findings after another's is recording both in sequence. |
| `SecurityCheck.FileEntry` | security-check.js:32-48 | The finding is an error exactly when the file is missing and critical, a warning exactly when missing and not critical, and passed exactly when present. |
| `SecurityCheck.SecurityChecker.CheckFileExists` | security-check.js:32-48 | Returns whether the file exists and appends exactly its one finding. |
| `SecurityCheck.GitignoreClassified` | security-check.js:50-71 | A missing .gitignore is one error and false, with no pattern checked. Otherwise each of the four patterns adds one finding: passed exactly when the content contains it, else an error. The result is true. |
| `SecurityCheck.SecurityChecker.CheckGitignore` | security-check.js:50-71 | Appends the gitignore findings in order and returns the result. |
| `SecurityCheck.EnvFilesClassified` | security-check.js:73-85 | A missing .env.example is an error and a missing .env a warning. The five variables are checked only when .env exists. |
| `SecurityCheck.SecurityChecker.CheckEnvFiles` | security-check.js:73-85 | Appends the findings of both files, then those of the variables. |
| `SecurityCheck.FirstDefinition` | security-check.js:101-116 | Finds the first line that is `NAME=` followed by at least one character: no earlier line is. It finds none exactly when no line is. |
| `SecurityCheck.ExampleValueIgnoresCase` | security-check.js:114-117 | Because the line is lower-cased before the search, an example value is found whatever its case: a lower-cased line is flagged exactly when the original is. |
| `SecurityCheck.EnvVarErrorIff` | security-check.js:101-131 | A variable is an error exactly when no line is `NAME=` followed by at least one character. Otherwise the first such line decides: a warning exactly when, lower-cased, it contains an example value, else passed. |
| `SecurityCheck.EnvVarDefinedOnFirstLine` | security-check.js:102-126 | A first line `NAME=value` with a non-empty value is not an error. It is passed unless it holds an example value. |
| `SecurityCheck.SecurityChecker.CheckEnvVariables` | security-check.js:87-132 | Appends one finding per required variable, in order. |
| `SecurityCheck.GitErrorFree` | security-check.js:134-169 | The git check records one finding. It is an error exactly when `git ls-files .env` prints something other than whitespace. |
| `SecurityCheck.SecurityChecker.CheckGitStatus` | security-check.js:134-169 | Appends the git finding. |
| `SecurityCheck.PermissionThreshold` | security-check.js:182-184 | The permission bits pass exactly when the owner digit is below 6 (whatever the group and other bits) or they are exactly 0o600. |
| `SecurityCheck.PermissionsNeverError` | security-check.js:171-196 | The permission check never records an error. It records nothing on win32 or without .env. It passes exactly when the bits are at most 0o600. |
| `SecurityCheck.SecurityChecker.CheckFilePermissions` | security-check.js:171-196 | Appends the permission finding, if any. |
| `SecurityCheck.DependenciesClassified` | security-check.js:198-225 | A missing package.json is the check's only possible error. Otherwise each of the five packages is passed exactly when either dependency object declares it, else a warning. |
| `SecurityCheck.SecurityChecker.CheckDependencies` | security-check.js:198-225 | Appends those findings. It reports a `JSON.parse` that throws and then records nothing. |
| `SecurityCheck.SecurityChecker.GenerateReport` | security-check.js:259-264 | The verdict is true exactly when the errors list is empty. |
| `SecurityCheck.RunPassesIff` | security-check.js:267-286 | A fresh checker's run passes, and the process exits with 0, exactly on a clean workspace. Clean means: .gitignore with all four patterns, .env.example present, every variable defined when .env exists, .env not tracked by git, and a package.json that parses. Warnings never fail a run. |
| `SecurityCheck.RunOnlyGrows` | security-check.js:267-278 | A run leaves each list an extension of what it was. |
| `SecurityCheck.SecurityChecker.Run` | security-check.js:267-278 | Runs the five checks in order and then the report, as `RunChecks` states. |
| `SecurityCheck.SecurityChecker.constructor` | security-check.js:12-16 | A new checker starts with three empty lists. |
| `Lifecycle.NoOperationRestoresPending` | routes/auth.js:154-304 | No operation (callback, gated request, admin action, passport login, admin bootstrap) removes a row or puts a row that left pendiente back into it, and every operation keeps the table well formed. |
| `Lifecycle.HistoryRestoresNoPending` | routes/auth.js:154-304 | The same holds for any sequence of operations. |
| `Lifecycle.RevocationTakesEffect` | middleware/auth.js:17-25 | After a user is rejected, the gate refuses every request with a token for that user, however fresh the token. |
| `Lifecycle.DowngradeTakesEffect` | middleware/auth.js:49-54 | After a user's role is set to usuario, that user's next admitted request fails `requireAdmin`. |
| `Lifecycle.ApprovalAdmitsNextLogin` | routes/auth.js:178-194 | After an admin approves the row a profile's login finds, that profile's next login gets an 8-hour token for the approved row. |

## Left out

- `index.js` (Express wiring, helmet, CORS, rate limiting, logging, the Power BI embed proxy) and `db.js` (the connection and the `reportes_powerbi` table) are not part of this model.
- The `usuarios` schema is not in the repository's files:
  - the default of the `rol` column is the store's `rolDefault`;
  - columns an INSERT does not write are None;
  - uniqueness constraints are not modelled.
- Routes outside the modelled core:
  - `/test`, `/login/debug` and `/callback/debug` are debug pages;
  - `/me` and `/logout` only echo `req.user` or a message after the gate;
  - `GET /admin/users` is a read-only listing behind the same `verifyToken` + `requireAdmin` chain.
- `Store.Lookup` takes rowid order. A `db.get` without `ORDER BY` returns whichever matching row SQLite's query plan meets first, and SQLite promises no order, so every lemma that names the row found assumes that order. `LookupFindsFirst` states the assumption.
- Tokens.Sign: the model assumes `JWT_SECRET` is set when the callback signs. With it unset, `jwt.sign` at routes/auth.js:184-188 throws inside the database callback, outside the route's `try`. Nothing is there to catch the exception; the source installs no `uncaughtException` handler, so under Node's default the whole process ends. `ultimo_acceso` is not written and no response is sent. `Routes.Callback` does not model that path. `LegacyAuth.Init` models the startup check that the passport variant does.
- The code exchange and the Graph `/me` call are HTTP. Their result is the `Exchange` input, and there are no timeouts or retries because the code has none.
- JWT cryptography (HMAC signing and checking) is the abstract `decode`. The `token=` query value carries the claims, not their signed encoding.
- The updates without a callback are modelled as sequential updates whose failure is ignored. These are the `microsoft_id` backfill, the callback's `ultimo_acceso` touch and the gate's touch. How they interleave with the response, and with concurrent requests, is not modelled.
- Console logging, HTML rendering, ANSI colours, and the report's printed text are left out. Only the report's verdict is modelled.
- Passport internals are left out: `req.isAuthenticated()` is an input, and session storage is not modelled.
- Routes.AdminRequest: the `:id` path parameter is taken as the integer it denotes. SQLite's comparison of a text parameter with an integer column is not modelled. A parameter naming no row is covered as an unknown id.
- Routes.ParseRol: a request body's `rol` is modelled as an optional string. Other JSON values, which the code also rejects with 400, are not represented.
- LegacyAuth.VerifyProfile: `profile._json` is assumed present. When it is missing, the code throws inside the database callback, outside any `try`, and under Node's default the process ends. That path is not modelled. The profile's own `id` is modelled as an optional integer.
- OAuthLogin.DecodeEncode: the decode round trip is proved only for ASCII text. `encodeURIComponent` throwing on a lone surrogate is not modelled, because a Dafny `char` is always a Unicode scalar value.
- OAuthLogin.BeginLogin: the `Location` is the URL as built. `res.redirect` also passes it through Express's `encodeurl`, which escapes unsafe characters in the unencoded `TENANT_ID` and `CLIENT_ID` interpolations; that escaping is not modelled. For GUID configuration values, as Entra ID issues them, it changes nothing.
- Text.Lower: `toLowerCase` is modelled on ASCII letters only. Other letters are left unchanged.
- SecurityCheck.Workspace: the model keeps two kinds of failure. It does not model `readFileSync` failing on a file `existsSync` reported, or dependency values that are not strings.
  - It models `JSON.parse` throwing (the run ends with `Threw`, exit code 1).
  - It models `statSync` throwing (a warning).
