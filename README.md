# Fitness tracker: authentication and session core

This project models the request-scoped security core of a small PHP fitness-tracker web application, together with the small pure helpers around it:

- **The session store.** `app/utils/Session.php` provides an idempotent start, idle expiry against `SESSION_LIFETIME`, attribute access, one-shot flash messages, login markers and a per-session CSRF token.
- **The middleware.** `app/middleware/Auth.php` provides
  - a login throttle, a `{count, first_attempt}` record kept in the session under `login_attempts_<md5(identifier)>`;
  - CSRF enforcement;
  - the login and guest gates.
- **The password-reset tokens.** These are the `password_resets` rows managed by `app/models/User.php`.
- **The three controllers** that compose these:
  - the POST handler of `public/login.php`;
  - the request and reset actions of `public/reset-password.php`;
  - `public/logout.php`.
- **The validator.** `app/utils/Validator.php` keeps an error map with one message per field, holds the rule checks, and escapes output with `htmlspecialchars`.
- **The logger.** From `app/utils/Logger.php`: the level, the threshold filter, the routing of each level to its file, the line format, and the masking of e-mail addresses and password assignments.
- **The page arithmetic.**
  - `public/calendar.php`: month normalisation, the neighbouring-month links, grid padding, and grouping a month's rows by date.
  - `public/progress.php`: the session-type breakdown and its `arsort`, and the totals.
  - `public/assets/js/app.js`: client-side field validation, the password confirmation, the intensity band and `formatDuration`.
  - `public/bootstrap.php`: the class autoloader and start-up.

## How the model is built

- **Classes for state that changes.** Where the source changes state in place, the model is a class.
  - `Sessions.Session` holds the `$started` flag, the `$_SESSION` map and the session identifier.
  - `Logging.Logger` holds the static level and the entries written so far.
  - `ResetTokens.PasswordResets` holds the token table as a set of rows.
  - `Validation.Validator` holds the error map.
  - `ClientScript.FormGroup` holds a form group's `has-error` class.
- **Method contracts.** Each method's `ensures` ties its new state to a pure transition function of the old state, such as `Sessions.AfterStart` or `ResetTokens.RowsAfterCreate`. The promised properties are lemmas about those functions.
- **Controllers.** Each controller is a method whose contract is a pure outcome function, for example `LoginPage.OutcomeOf`. The session, the log, the rendered variables, the response and the ordered trace of collaborator calls are all functions of that outcome.
- **Injected externals.** Everything outside the application is a parameter:
  - the clock (`now`, in seconds) and `random_bytes(32)` (`randomBytes`);
  - `md5`, `hash('sha256', …)` and `password_verify`;
  - the user lookup `findByUsername` and `filter_var`'s e-mail check;
  - the JavaScript regular expressions, `file_exists`, and the outcome of `updatePassword`.
- **Loops.** Loops in the source are `while` loops with invariants, all proved against specification functions:
  - the `$typeBreakdown` count;
  - the `$sessionsByDate` and `$metricsByDate` grouping;
  - the calendar grid.
- **The throttle as written.** The throttle follows the code, not a cleaned-up version of it:
  - `checkRateLimit` resets an expired window only in a local copy (`Auth.php:49-51`).
  - `recordFailedAttempt` restarts the window only when the stored count is 0 (`Auth.php:71-73`).
  - `Auth.StaleWindowNeverBlocks` proves what follows from this. Once a record's window has lapsed without `clearAttempts`, every later check passes while the stored count keeps growing.
  - A design that resets the window wholesale on expiry would behave differently. The model follows the code.

## Model

| member | source | states |
|---|---|---|
| Sessions.AfterStart | fitness-tracker/app/utils/Session.php:16-45 | afterwards the session is active; once started it is unchanged; otherwise `last_activity` becomes `now`, and an idle session (`now - last_activity > SESSION_LIFETIME`) is emptied and gets a never-used identifier |
| Sessions.AfterDestroy | fitness-tracker/app/utils/Session.php:59-79 | an active session loses every attribute, its identifier and its started flag; an inactive one is untouched |
| Sessions.AfterRegenerate | fitness-tracker/app/utils/Session.php:50-54 | an active session keeps its attributes under a new, never-used identifier |
| Sessions.AfterSet | fitness-tracker/app/utils/Session.php:84-87 | `set` starts the session and keeps the identifier start leaves |
| Sessions.AfterRemove | fitness-tracker/app/utils/Session.php:108-111 | `remove` starts the session and keeps the identifier start leaves |
| Sessions.AfterLogin | fitness-tracker/app/utils/Session.php:146-151 | login keeps the session well formed (active sessions have an issued identifier) |
| Sessions.AfterCsrfToken | fitness-tracker/app/utils/Session.php:156-161 | token generation keeps the session well formed |
| Sessions.StartIsIdempotent | fitness-tracker/app/utils/Session.php:17-19 | a second `start` in the same request changes nothing |
| Sessions.GetAfterSet | fitness-tracker/app/utils/Session.php:84-95 | `get(k)` after `set(k, v)` gives `v`; every other key reads as it did after start |
| Sessions.NullIsAbsent | fitness-tracker/app/utils/Session.php:92-103 | a key set to null is not `isset` and `get` returns the default for it |
| Sessions.HasAfterRemove | fitness-tracker/app/utils/Session.php:100-111 | `has(k)` is false after `remove(k)`; the map is the started map without `k`, so every other key keeps its value |
| Sessions.FlashIsReadOnce | fitness-tracker/app/utils/Session.php:116-127 | a flashed message is readable once; after `getFlash` removes it, the key reads as null |
| Sessions.CsrfTokenIsStable | fitness-tracker/app/utils/Session.php:156-161 | once a token is stored, further `generateCsrfToken` calls change nothing and return the same token |
| Sessions.FreshCsrfTokenIsHex | fitness-tracker/app/utils/Session.php:158 | a freshly generated token is `bin2hex` of the 32 random bytes: 64 lower-case hex characters |
| Sessions.CsrfValidation | fitness-tracker/app/utils/Session.php:166-172 | validation fails when no token is stored; otherwise it holds exactly when the submitted string equals the stored token |
| Sessions.IssuedCsrfTokenValidates | fitness-tracker/app/utils/Session.php:156-172 | after generation, a submitted token validates if and only if it is the token generated |
| Sessions.LoginEstablishesUser | fitness-tracker/app/utils/Session.php:132-151 | after login, `user_id`, `username` and `login_time` hold the given values, `isLoggedIn` holds, the identifier changed and all other keys are kept |
| Sessions.DestroyLogsOut | fitness-tracker/app/utils/Session.php:59-79 | destroy empties the map and clears the started flag; a following start holds only `last_activity`, so no user is logged in |
| Sessions.Session.constructor | fitness-tracker/app/utils/Session.php:10-11 | a request begins with the session not started, holding the cookie's stored attributes |
| Sessions.Session.Start | fitness-tracker/app/utils/Session.php:16-45 | the new state is `AfterStart` of the old |
| Sessions.Session.Destroy | fitness-tracker/app/utils/Session.php:59-79 | the new state is `AfterDestroy` of the old |
| Sessions.Session.Regenerate | fitness-tracker/app/utils/Session.php:50-54 | the new state is `AfterRegenerate` of the old |
| Sessions.Session.Set | fitness-tracker/app/utils/Session.php:84-87 | the new state is `AfterSet` of the old |
| Sessions.Session.Get | fitness-tracker/app/utils/Session.php:92-95 | starts the session and returns the stored value or the default |
| Sessions.Session.Has | fitness-tracker/app/utils/Session.php:100-103 | starts the session and returns whether the key is set and not null |
| Sessions.Session.Remove | fitness-tracker/app/utils/Session.php:108-111 | the new state is `AfterRemove` of the old |
| Sessions.Session.Flash | fitness-tracker/app/utils/Session.php:116-118 | stores the message under `flash_<type>` |
| Sessions.Session.GetFlash | fitness-tracker/app/utils/Session.php:123-127 | returns the flashed message (or null) and removes it |
| Sessions.Session.IsLoggedIn | fitness-tracker/app/utils/Session.php:132-134 | holds exactly when `user_id` is set |
| Sessions.Session.GetUserId | fitness-tracker/app/utils/Session.php:139-141 | returns `user_id`, or null |
| Sessions.Session.Login | fitness-tracker/app/utils/Session.php:146-151 | the new state is `AfterLogin`: regenerate, then the three login markers |
| Sessions.Session.GenerateCsrfToken | fitness-tracker/app/utils/Session.php:156-161 | stores a token only when none is set and returns the stored token |
| Sessions.Session.ValidateCsrfToken | fitness-tracker/app/utils/Session.php:166-172 | starts the session and returns whether a stored token equals the submitted one |
| Auth.RateCheck | fitness-tracker/app/middleware/Auth.php:42-60 | the rate check fails exactly when a stored record has `count >= LOGIN_RATE_LIMIT` and `now - first_attempt <= LOGIN_RATE_WINDOW` |
| Auth.AfterFailure | fitness-tracker/app/middleware/Auth.php:65-77 | the stored count rises by exactly one; `first_attempt` becomes `now` only when the prior count was 0 (or no record existed) and is kept otherwise |
| Auth.RemainingSeconds | fitness-tracker/app/middleware/Auth.php:115-127 | 0 below the limit; otherwise `max(0, WINDOW - (now - first_attempt))`, so within `[0, WINDOW]` when `first_attempt <= now` |
| Auth.ThrottleKeyIsolated | fitness-tracker/app/middleware/Auth.php:45 | the throttle key never collides with the session's own keys or flash keys, and distinct md5 digests give distinct keys |
| Auth.NoRecordAllows | fitness-tracker/app/middleware/Auth.php:46-51 | with no record the rate check passes (the default first attempt 0 counts as a lapsed window); after `clearAttempts` or `destroy` there is no record |
| Auth.FailuresAccumulate | fitness-tracker/app/middleware/Auth.php:65-77 | failures on an existing record add one each and never move `first_attempt` |
| Auth.FreshFailures | fitness-tracker/app/middleware/Auth.php:65-77 | failures from no record leave a count equal to the number of failures and the first failure's time |
| Auth.LimitFailuresBlock | fitness-tracker/app/middleware/Auth.php:49-59 | after at least `LOGIN_RATE_LIMIT` failures, a check blocks exactly when it falls within the window from the first failure |
| Auth.FiveFailuresScenario | fitness-tracker/app/middleware/Auth.php:49-59 | five failures at seconds 0-4 block a check at second 5, with 895 seconds remaining |
| Auth.StaleWindowNeverBlocks | fitness-tracker/app/middleware/Auth.php:49-51 | once the window of a stored record has lapsed, every later check passes while each failure still raises the count |
| Auth.RemainingAgreesWithCheck | fitness-tracker/app/middleware/Auth.php:53-57 | the remaining time is 0 whenever the rate check passes, and `WINDOW - (now - first_attempt)` whenever it blocks |
| Auth.MissingCsrfFieldFails | fitness-tracker/app/middleware/Auth.php:91-92 | a POST without the CSRF field submits `''`, which fails against any non-empty stored token |
| Auth.CheckRateLimit | fitness-tracker/app/middleware/Auth.php:42-60 | leaves the session as start leaves it, returns `RateCheck` of the stored record, and logs a warning only when blocking |
| Auth.RecordFailedAttempt | fitness-tracker/app/middleware/Auth.php:65-77 | stores `AfterFailure` of the record under the identifier's key |
| Auth.ClearAttempts | fitness-tracker/app/middleware/Auth.php:82-86 | removes the identifier's key |
| Auth.GetRateLimitRemaining | fitness-tracker/app/middleware/Auth.php:115-127 | leaves the session as start leaves it and returns `RemainingSeconds` of the stored record |
| Auth.ValidateCsrf | fitness-tracker/app/middleware/Auth.php:91-100 | returns whether the submitted field matches the stored token, logging a warning on failure |
| Auth.RequireCsrf | fitness-tracker/app/middleware/Auth.php:105-110 | proceeds on a match and otherwise aborts with 403 and the security-token page |
| Auth.RequireLogin | fitness-tracker/app/middleware/Auth.php:17-25 | proceeds when a user is logged in; otherwise flashes the login-required error and redirects to the login page |
| Auth.RequireGuest | fitness-tracker/app/middleware/Auth.php:30-37 | redirects a logged-in user to the dashboard and lets a guest proceed |
| ResetTokens.Without | fitness-tracker/app/models/User.php:192-203 | a `DELETE` by `token_hash` or by `user_id` leaves exactly the rows its `WHERE` clause does not match |
| ResetTokens.CreateResult | fitness-tracker/app/models/User.php:130-158 | a token is returned exactly when no database fault occurred, and it is 64 lower-case hex characters |
| ResetTokens.CreateLeavesOneRow | fitness-tracker/app/models/User.php:133-150 | after a successful create the user has exactly one row, the one just issued, and other users' rows are unchanged |
| ResetTokens.CreateStoresHash | fitness-tracker/app/models/User.php:137-150 | the stored row holds `sha256(token)` and expires at `now + PASSWORD_RESET_EXPIRY` |
| ResetTokens.FaultyCreateAddsNothing | fitness-tracker/app/models/User.php:154-157 | a create interrupted by a database exception adds no row |
| ResetTokens.UnknownTokenFails | fitness-tracker/app/models/User.php:164-178 | with no row for the hash, verification returns null and leaves the table unchanged |
| ResetTokens.VerifySingleRow | fitness-tracker/app/models/User.php:163-187 | a matching row with `now <= expires_at` yields its user and leaves the table unchanged; an expired one is deleted and yields null |
| ResetTokens.IssueThenVerify | fitness-tracker/app/models/User.php:130-187 | a freshly issued token verifies to its user until the expiry second and to null (with its row gone) afterwards |
| ResetTokens.SecondTokenSupersedesFirst | fitness-tracker/app/models/User.php:133-134 | after a second token is issued for the same user, the first verifies to null |
| ResetTokens.ConsumedTokenFails | fitness-tracker/app/models/User.php:192-203 | after either delete removes a token's rows, it verifies to null and changes nothing |
| ResetTokens.DeletionsAreTargeted | fitness-tracker/app/models/User.php:192-203 | each delete removes only the rows of its user or its hash |
| ResetTokens.PasswordResets.constructor | fitness-tracker/app/models/User.php:16-18 | the table starts with the given rows |
| ResetTokens.PasswordResets.Create | fitness-tracker/app/models/User.php:130-158 | the table becomes `RowsAfterCreate`; the result is `CreateResult`; the log gains the success or error line |
| ResetTokens.PasswordResets.Verify | fitness-tracker/app/models/User.php:163-187 | the result and new table satisfy `VerifyOutcome` (look up a row by hash; delete it if expired) |
| ResetTokens.PasswordResets.DeleteByHash | fitness-tracker/app/models/User.php:192-195 | the table becomes `Without` the rows of that hash |
| ResetTokens.PasswordResets.DeleteByUserId | fitness-tracker/app/models/User.php:200-203 | the table becomes `Without` the rows of that user |
| LoginPage.CeilMinutes | fitness-tracker/public/login.php:31 | the smallest whole number of minutes covering the remaining seconds |
| LoginPage.CheckedOutcome | fitness-tracker/public/login.php:29-56 | past the CSRF check the outcome is never a CSRF rejection |
| LoginPage.TraceOf | fitness-tracker/public/login.php:21-58 | every outcome's trace begins with the CSRF check |
| LoginPage.CsrfFirst | fitness-tracker/public/login.php:23 | a CSRF failure aborts with 403 before the throttle, the lookup or any session change |
| LoginPage.RateLimitedSkipsCredentials | fitness-tracker/public/login.php:29-32 | a throttled login neither looks the user up nor records an attempt, and shows `ceil(remaining/60)` minutes |
| LoginPage.MissingFieldsSkipLookup | fitness-tracker/public/login.php:25-37 | an empty (after trim) username or an empty password gives the prompt error with no lookup and no recorded attempt |
| LoginPage.SuccessfulLogin | fitness-tracker/public/login.php:42-49 | correct credentials clear the attempts, then log in with the user's id and name under a new identifier, and redirect to the dashboard |
| LoginPage.FailuresLookAlike | fitness-tracker/public/login.php:42-55 | an unknown user and a wrong password give the same message, response, log and session, both recording a failed attempt |
| LoginPage.HandlePost | fitness-tracker/public/login.php:21-58 | the session, log, `$error`, response and call order are those of the pure outcome of the request |
| LoginPage.Authenticate | fitness-tracker/public/login.php:29-56 | the part after the CSRF check, with the same correspondence |
| LoginPage.CheckCredentials | fitness-tracker/public/login.php:40-55 | the credential branch, with the same correspondence |
| LogoutPage.LoggedUser | fitness-tracker/public/logout.php:11-15 | the user id logged is present exactly when a non-zero integer id is in the session |
| LogoutPage.LogoutClearsEverything | fitness-tracker/public/logout.php:17-19 | afterwards the session holds only a fresh `last_activity` and the success flash, under a new identifier: no user, no CSRF token, no throttle record |
| LogoutPage.LogoutIsLoggedOnlyForUsers | fitness-tracker/public/logout.php:11-15 | the logout line is written only when a user was logged in |
| LogoutPage.HandleLogout | fitness-tracker/public/logout.php:11-21 | the session becomes `LoggedOutState`, the log gains `LogoutLog`, and the response redirects to the login page |
| ResetPasswordPage.InitialStep | fitness-tracker/public/reset-password.php:17-26 | the page starts at the reset step exactly when the query token is non-empty |
| ResetPasswordPage.RequestOutcomeOf | fitness-tracker/public/reset-password.php:34-60 | an issued token is 64 lower-case hex characters |
| ResetPasswordPage.RequestForUnknownUser | fitness-tracker/public/reset-password.php:36-59 | an empty or unknown username creates no token and writes no log; empty asks for the username, unknown moves to verify with the generic notice |
| ResetPasswordPage.RequestForKnownUser | fitness-tracker/public/reset-password.php:44-54 | a known user gets a fresh token, shown at the verify step, and is left with exactly one row, holding its hash |
| ResetPasswordPage.RequestFailsCleanly | fitness-tracker/public/reset-password.php:44-54 | when token creation fails the page shows the failure message and no row is added |
| ResetPasswordPage.Implode | fitness-tracker/public/reset-password.php:77-78 | joining no errors gives `""` and a single error gives that error |
| ResetPasswordPage.MissingTokenFirst | fitness-tracker/public/reset-password.php:75-78 | an empty token gives the invalid-link error alone, ahead of any password error |
| ResetPasswordPage.PrecheckPasses | fitness-tracker/public/reset-password.php:67-79 | the token is verified only when it is non-empty, the password passes the validator and the confirmation matches |
| ResetPasswordPage.PrecheckMessage | fitness-tracker/public/reset-password.php:67-78 | with a token present, the password error and the mismatch error are joined in that order |
| ResetPasswordPage.UserZeroIsRejected | fitness-tracker/public/reset-password.php:80-94 | a verified user id 0 is falsy in PHP and gives the invalid-token error with no update |
| ResetPasswordPage.OnlyCompletedResetFlashes | fitness-tracker/public/reset-password.php:83-94 | only a completed reset sets the success flash and redirects to login; anything else leaves the session and proceeds; a failed update shows the failure message |
| ResetPasswordPage.ResetConsumesToken | fitness-tracker/public/reset-password.php:87 | once the user's tokens are deleted, the token never verifies again |
| ResetPasswordPage.UpdatePassword | fitness-tracker/app/models/User.php:104-125 | succeeds exactly when no database fault occurred, logging success or the error |
| ResetPasswordPage.RequestReset | fitness-tracker/public/reset-password.php:34-60 | the view, the table and the log are those of the request outcome |
| ResetPasswordPage.CompleteReset | fitness-tracker/public/reset-password.php:61-97 | precheck failures leave the table alone; otherwise the token is verified, and a completed reset deletes all of the user's tokens; view, response, session and log follow |
| ResetPasswordPage.HandlePost | fitness-tracker/public/reset-password.php:29-98 | a CSRF failure aborts with 403 and no table change; otherwise the chosen action takes effect |
| ResetPasswordPage.Dispatch | fitness-tracker/public/reset-password.php:32-97 | the action named by the form takes effect |
| Validation.Put | fitness-tracker/app/utils/Validator.php:30-32 | adding an error grows the map by at most one entry and leaves it non-empty |
| Validation.Fields | fitness-tracker/app/utils/Validator.php:16-18 | the fields of the error map, in insertion order |
| Validation.PutLastWriteWins | fitness-tracker/app/utils/Validator.php:30-32 | the last message for a field wins and other fields keep theirs |
| Validation.PutKeepsOrder | fitness-tracker/app/utils/Validator.php:30-32 | overwriting keeps the field order; a new field is appended |
| Validation.PutKeepsFieldsUnique | fitness-tracker/app/utils/Validator.php:30-32 | the map never holds a field twice |
| Validation.ValidIffAllChecksPass | fitness-tracker/app/utils/Validator.php:23-25 | after a run of checks the map is empty exactly when it started empty and every check passed |
| Validation.UsernameError | fitness-tracker/app/utils/Validator.php:45-64 | accepted exactly when the trimmed value has 3..50 characters from `[A-Za-z0-9_-]`; `""` and `"0"` report "required" |
| Validation.PasswordError | fitness-tracker/app/utils/Validator.php:70-92 | accepted exactly when the untrimmed value has 8..128 characters with an ASCII letter and a digit; `""` and `"0"` report "required" |
| Validation.EmailError | fitness-tracker/app/utils/Validator.php:97-113 | accepted exactly when the value is null, empty, or at most 150 characters and a valid address |
| Validation.SessionTypeError | fitness-tracker/app/utils/Validator.php:119-138 | accepted exactly when the trimmed value is non-empty, at most 50 characters, over letters, digits, white space and `-` |
| Validation.NotesError | fitness-tracker/app/utils/Validator.php:143-154 | accepted exactly when null or at most 10000 characters |
| Validation.DurationError | fitness-tracker/app/utils/Validator.php:191-202 | accepted exactly when null or in `1..1440` |
| Validation.IntensityError | fitness-tracker/app/utils/Validator.php:207-218 | accepted exactly when null or in `1..10` |
| Validation.TimeError | fitness-tracker/app/utils/Validator.php:248-259 | accepted exactly when null, empty, or matching the `H:MM`/`HH:MM[:SS]` pattern |
| Validation.TimeFieldsInRange | fitness-tracker/app/utils/Validator.php:253 | an accepted time has an hour of at most 23 and minutes of at most 59 |
| Validation.ClockTimesAccepted | fitness-tracker/app/utils/Validator.php:253 | every clock time from `00:00` to `23:59` is accepted, padded or with a one-digit hour |
| Validation.TimeEdgeCases | fitness-tracker/app/utils/Validator.php:253 | `24:00` and `12:60` are rejected; `$` lets one trailing newline through but not two |
| Validation.SequenceLength | fitness-tracker/app/utils/Validator.php:265 | a UTF-8 sequence is one to four units long and fits in the input |
| Validation.Escape | fitness-tracker/app/utils/Validator.php:265 | the output has no raw `<`, `>`, `"` or `'`; text with none of these and no `&` is unchanged |
| Validation.Sanitize | fitness-tracker/app/utils/Validator.php:264-266 | the output has no raw markup character |
| Validation.EscapeRoundTrip | fitness-tracker/app/utils/Validator.php:265 | unescaping the entities gives the input back |
| Validation.SanitizeRoundTrip | fitness-tracker/app/utils/Validator.php:264-266 | well-formed UTF-8 unescapes back to the input; ill-formed input gives `""` |
| Validation.AsciiIsWellFormed | fitness-tracker/app/utils/Validator.php:265 | ASCII text is well-formed UTF-8 |
| Validation.StrayContinuationEmpties | fitness-tracker/app/utils/Validator.php:265 | a stray continuation byte after ASCII text makes the whole output empty |
| Validation.StrayContinuationIllFormed | fitness-tracker/app/utils/Validator.php:265 | such text is not well-formed UTF-8 |
| Validation.SanitizeArray | fitness-tracker/app/utils/Validator.php:271-278 | keys and order are kept; strings are sanitized; other values pass through |
| Validation.Validator.constructor | fitness-tracker/app/utils/Validator.php:10-11 | a new validator has no errors |
| Validation.Validator.IsValid | fitness-tracker/app/utils/Validator.php:23-25 | holds exactly when the error map is empty |
| Validation.Validator.AddError | fitness-tracker/app/utils/Validator.php:30-32 | the map becomes `Put` of the old map |
| Validation.Validator.ClearErrors | fitness-tracker/app/utils/Validator.php:37-39 | the map becomes empty |
| Validation.Validator.Username | fitness-tracker/app/utils/Validator.php:45-64 | returns true exactly when no error is added; otherwise the username error is recorded |
| Validation.Validator.Password | fitness-tracker/app/utils/Validator.php:70-92 | returns true exactly when no error is added; otherwise the password error is recorded |
| Validation.Validator.Email | fitness-tracker/app/utils/Validator.php:97-113 | returns true exactly when no error is added; otherwise the e-mail error is recorded |
| Validation.Validator.SessionType | fitness-tracker/app/utils/Validator.php:119-138 | returns true exactly when no error is added; otherwise the session-type error is recorded |
| Validation.Validator.Notes | fitness-tracker/app/utils/Validator.php:143-154 | returns true exactly when no error is added; otherwise the notes error is recorded |
| Validation.Validator.Duration | fitness-tracker/app/utils/Validator.php:191-202 | returns true exactly when no error is added; otherwise the duration error is recorded |
| Validation.Validator.Intensity | fitness-tracker/app/utils/Validator.php:207-218 | returns true exactly when no error is added; otherwise the intensity error is recorded |
| Validation.Validator.Time | fitness-tracker/app/utils/Validator.php:248-259 | returns true exactly when no error is added; otherwise the time error is recorded |
| Logging.ParseLevel | fitness-tracker/app/utils/Logger.php:23-27 | finds the level whose name is the upper-cased argument, or none when no level has that name |
| Logging.SetLevelAcceptsLevelNames | fitness-tracker/app/utils/Logger.php:23-27 | a level name in any case becomes the level; any other argument leaves the level unchanged |
| Logging.SetLevelIgnoresCase | fitness-tracker/app/utils/Logger.php:24 | `"warning"` sets WARNING and `"Error"` sets ERROR |
| Logging.SetLevelKeepsOnUnknown | fitness-tracker/app/utils/Logger.php:25 | an unknown name keeps the current level |
| Logging.FilterIsThreshold | fitness-tracker/app/utils/Logger.php:11-34 | a level is logged exactly when its rank is at least the current one: errors always, everything under DEBUG (the default); distinct levels have distinct ranks |
| Logging.Routing | fitness-tracker/app/utils/Logger.php:102-137 | debug goes to `debug.log`, info to `access.log`, warning and error to `error.log` |
| Logging.LineShape | fitness-tracker/app/utils/Logger.php:39-45 | a line starts `[ts] [LEVEL] [` and ends with the message and a newline; the user field is `-` exactly for no user |
| Logging.Emit | fitness-tracker/app/utils/Logger.php:102-137 | a call writes one entry, to its level's file, exactly when the level passes the filter, and otherwise nothing |
| Logging.EmailMatchAt | fitness-tracker/app/utils/Logger.php:84-86 | a match found at a position lies after it and within the message |
| Logging.PasswordMatchAt | fitness-tracker/app/utils/Logger.php:91-93 | a match found at a position lies after it and within the message |
| Logging.NoAtSignNoEmailMask | fitness-tracker/app/utils/Logger.php:83-87 | a message without `@` is not changed by e-mail masking |
| Logging.EmailLocalPartMasked | fitness-tracker/app/utils/Logger.php:83-87 | in a message with one address, the local part becomes `***` and the domain is kept |
| Logging.PasswordAssignmentMasked | fitness-tracker/app/utils/Logger.php:90-94 | `password=hunter2` becomes `password=***MASKED***` |
| Logging.PasswordAssignmentMatches | fitness-tracker/app/utils/Logger.php:91-93 | the `=` form matches through the whole value |
| Logging.QuotedPasswordMatches | fitness-tracker/app/utils/Logger.php:91-93 | the case-insensitive `Password: "…"` form matches up to the closing quote |
| Logging.NoPasswordWordUnchanged | fitness-tracker/app/utils/Logger.php:90-94 | a message without the word `password` is not changed by password masking |
| Logging.PlainMessageLoggedVerbatim | fitness-tracker/app/utils/Logger.php:81-97 | a message with no `@` and no `password` is written exactly as formatted |
| Logging.Logger.constructor | fitness-tracker/app/utils/Logger.php:18 | the level starts at DEBUG and nothing is written |
| Logging.Logger.SetLevel | fitness-tracker/app/utils/Logger.php:23-27 | the level becomes `LevelAfterSet` and nothing is written |
| Logging.Logger.Debug | fitness-tracker/app/utils/Logger.php:102-107 | appends the DEBUG entry when it passes the filter |
| Logging.Logger.Info | fitness-tracker/app/utils/Logger.php:112-117 | appends the INFO entry when it passes the filter |
| Logging.Logger.Warning | fitness-tracker/app/utils/Logger.php:122-127 | appends the WARNING entry when it passes the filter |
| Logging.Logger.Error | fitness-tracker/app/utils/Logger.php:132-137 | appends the ERROR entry when it passes the filter |
| Logging.Logger.Exception | fitness-tracker/app/utils/Logger.php:142-153 | logs the exception's class, message, file and line at ERROR |
| Logging.Logger.LoginAttempt | fitness-tracker/app/utils/Logger.php:158-161 | logs `SUCCESS` or `FAILED` for the username at INFO |
| Logging.Logger.Logout | fitness-tracker/app/utils/Logger.php:166-168 | logs "User logged out" at INFO with the user id |
| Logging.Logger.DataChange | fitness-tracker/app/utils/Logger.php:173-175 | logs the table, action and record id at INFO |
| Calendar.ClampYear | fitness-tracker/public/calendar.php:26-27 | the year lies in `[2000, 2100]` and is unchanged when already inside |
| Calendar.Normalize | fitness-tracker/public/calendar.php:24-27 | the month lies in `[1, 12]` and the year in `[2000, 2100]`; month < 1 becomes December of the year before, month > 12 January of the year after; in-range values are kept |
| Calendar.NormalizeIdempotent | fitness-tracker/public/calendar.php:24-27 | normalising twice changes nothing |
| Calendar.NextAfterLastYearClamps | fitness-tracker/public/calendar.php:24-68 | following the "Next" link from December 2100 (year 2101, month 1) normalises to January 2100 |
| Calendar.Prev | fitness-tracker/public/calendar.php:63-65 | the previous month is one month earlier (January wraps to December of the year before) |
| Calendar.Next | fitness-tracker/public/calendar.php:66-68 | the next month is one month later (December wraps to January of the year after) |
| Calendar.MonthIndexInjective | fitness-tracker/public/calendar.php:63-68 | distinct valid months have distinct month counts |
| Calendar.PrevNextInverse | fitness-tracker/public/calendar.php:63-68 | the previous and the next month are inverse to each other |
| Calendar.PrevOfFirstMonthLeadsForward | fitness-tracker/public/calendar.php:63-65 | the link before January 2000 normalises to December 2000 |
| Calendar.TrailingBlanks | fitness-tracker/public/calendar.php:158-160 | at most 6 trailing blanks, making the cell count a multiple of 7 |
| Calendar.DayKeyShape | fitness-tracker/public/calendar.php:129 | the day key is 10 characters `YYYY-MM-DD` whose fields read back as the year, month and day |
| Calendar.DayKeyInjective | fitness-tracker/public/calendar.php:129 | distinct dates have distinct day keys |
| Calendar.GridCells | fitness-tracker/public/calendar.php:121-163 | leading blanks, then day cells `1..daysInMonth` with their keys, then trailing blanks, in a multiple of 7 cells |
| Calendar.OnDate | fitness-tracker/public/calendar.php:48-55 | the rows on a date all carry that date |
| Calendar.OnAbsentDate | fitness-tracker/public/calendar.php:130 | a date with no sessions has an empty list |
| Calendar.GroupSessionsByDate | fitness-tracker/public/calendar.php:48-55 | the keys are exactly the session dates and each list is that date's sessions in their original order |
| Calendar.SessionsPartitioned | fitness-tracker/public/calendar.php:48-55 | across the distinct dates the lists hold every session exactly once, so `activeDays` counts the distinct dates |
| Calendar.RowOnItsDate | fitness-tracker/public/calendar.php:48-55 | every session is in its own date's list |
| Calendar.LastOnDate | fitness-tracker/public/calendar.php:57-60 | the metric kept for a date carries that date |
| Calendar.LastOnDateIsLast | fitness-tracker/public/calendar.php:57-60 | a metric is kept for exactly the dates that occur, and it is the last metric with that date |
| Calendar.LastMetricByDate | fitness-tracker/public/calendar.php:57-60 | the map's keys are the metric dates and each value is the last metric seen for its date |
| Progress.CountTypes | fitness-tracker/public/progress.php:41-48 | the counting loop builds `Tally` of the rows |
| Progress.BreakdownSumsToTotal | fitness-tracker/public/progress.php:36-48 | the counts add up to the number of sessions |
| Progress.BreakdownKeysAreTypes | fitness-tracker/public/progress.php:41-48 | a type has an entry exactly when some session has that type |
| Progress.BreakdownKeysDistinct | fitness-tracker/public/progress.php:41-48 | no type has two entries |
| Progress.BreakdownCountsOccurrences | fitness-tracker/public/progress.php:41-48 | each count is the number of sessions of its type, hence at least 1 |
| Progress.SortDesc | fitness-tracker/public/progress.php:49 | sorting keeps the number of entries |
| Progress.InsertDescSorted | fitness-tracker/public/progress.php:49 | inserting into a non-increasing list keeps it non-increasing |
| Progress.InsertDescPermutes | fitness-tracker/public/progress.php:49 | inserting adds exactly the new entry |
| Progress.InsertDescStable | fitness-tracker/public/progress.php:49 | inserting keeps the order of entries with equal counts |
| Progress.SortDescProperties | fitness-tracker/public/progress.php:49 | `arsort` leaves counts non-increasing, is a permutation, and keeps equal counts in their original order |
| Progress.TypeBreakdown | fitness-tracker/public/progress.php:41-49 | the rendered breakdown is the sorted tally |
| Progress.BreakdownAsRendered | fitness-tracker/public/progress.php:41-49 | the rendered (`arsort`ed) breakdown is non-increasing, a permutation of the tally, has distinct keys, gives each type its number of sessions, and its counts sum to the number of sessions |
| Progress.RoundDiv | fitness-tracker/public/progress.php:38 | the nearest integer to `a/b`, with halves rounded away from zero |
| Progress.AvgDuration | fitness-tracker/public/progress.php:38 | 0 without sessions, and otherwise the rounded mean duration |
| Progress.TotalHours | fitness-tracker/public/progress.php:92 | `floor(total/60)`: the largest `h` with `60h <= total` |
| Progress.Percentage | fitness-tracker/public/progress.php:187 | the share rounded to the nearest percent, within `[0, 100]` for a count within the total |
| Rows.TotalDuration | fitness-tracker/public/progress.php:37 | non-negative when every duration is (a NULL duration counts as 0) |
| Calendar.TotalTimeShown | fitness-tracker/public/calendar.php:187-190 | the month's "Total Time" stat is the summed durations formatted as `Xh Ym`; with non-negative durations it reads back as exactly that total |
| Durations.Hours | fitness-tracker/public/assets/js/app.js:263 | the largest `h` with `60h <= minutes` |
| Durations.Minutes | fitness-tracker/public/assets/js/app.js:264 | the truncating remainder: within `[0, 60)` for non-negative minutes and `(-60, 0]` otherwise, congruent to the minutes mod 60 |
| Durations.FormatDuration | fitness-tracker/public/assets/js/app.js:262-266 | the text ends in `m` |
| Durations.FormatDurationRoundTrip | fitness-tracker/public/assets/js/app.js:262-266 | a non-negative duration reads back from its text, so `h*60 + m` is the duration and no two durations print alike |
| Durations.HourPartFromSixty | fitness-tracker/public/assets/js/app.js:265 | the text has an hour part exactly when the duration is at least 60 minutes |
| ClientScript.IntensityBand | fitness-tracker/public/assets/js/app.js:147-154 | the bands `<= 3`, `4..6` and `>= 7` partition the integers; NaN falls in the high band |
| ClientScript.BandMonotone | fitness-tracker/public/assets/js/app.js:147-154 | a higher intensity never gets a lower band |
| ClientScript.BadgeMatchesSlider | fitness-tracker/public/dashboard.php:189 | the dashboard badge uses the same thresholds as the slider |
| ClientScript.ValidateInput | fitness-tracker/public/assets/js/app.js:57-99 | returns `undefined` without a form group; otherwise returns true exactly when the required, `minlength`, pattern and e-mail checks all pass, and sets `has-error` to the opposite |
| ClientScript.BlankRequiredFails | fitness-tracker/public/assets/js/app.js:64 | a required control holding only white space is invalid |
| ClientScript.ClearOnInput | fitness-tracker/public/assets/js/app.js:50-53 | typing clears the group's error class |
| ClientScript.CheckConfirmation | fitness-tracker/public/assets/js/app.js:107-116 | the confirmation group is flagged exactly when the two values differ |
| ClientScript.FormGroup.constructor | fitness-tracker/public/register.php:95 | a group starts with the `has-error` class exactly when the server rendered it with one (the field had an error) |
| Autoload.ClassFile | fitness-tracker/public/bootstrap.php:16-28 | a path is computed exactly for class names starting with `App\` |
| Autoload.Autoloaded | fitness-tracker/public/bootstrap.php:30-32 | a file is required exactly when the computed path exists, and it is that path |
| Autoload.NamespacedClassFile | fitness-tracker/public/bootstrap.php:24-28 | `App\<dir>\<Name>` maps to the lower-cased `APP_ROOT/app/<dir with / for \>` followed by `/<Name>.php` |
| Autoload.SingleLevelClassFile | fitness-tracker/public/bootstrap.php:28 | for a class such as `App\Utils\Session`, the directory part, `APP_ROOT` included, is lower-cased and the file name keeps its case |
| Autoload.SplitAtLastSlash | fitness-tracker/public/bootstrap.php:28 | `dirname` and `basename` split `d/f` into `d` and `f` |
| Autoload.Bootstrap | fitness-tracker/public/bootstrap.php:36-39 | sets the logger level to `LOG_LEVEL`, then starts the session |
| Text.Trim | fitness-tracker/app/utils/Validator.php:46 | trimming never lengthens the string |
| Text.TrimIsSlice | fitness-tracker/app/utils/Validator.php:46 | `trim` returns the middle of the string, with only strippable characters cut from each end and none left at either end |
| Text.TrimOfTrimmed | fitness-tracker/app/utils/Validator.php:46 | a string with no strippable character at either end is its own trim |
| Text.Lower | fitness-tracker/public/bootstrap.php:28 | `strtolower` lower-cases each ASCII letter and keeps the length |
| Text.LowerAppend | fitness-tracker/public/bootstrap.php:28 | lower-casing distributes over concatenation |
| Text.ReplaceChar | fitness-tracker/public/bootstrap.php:25 | `str_replace` of one character by another, position by position |
| Text.IntToDecimal | fitness-tracker/public/calendar.php:190 | a negative number prints with a leading minus and any other number prints as its digits |
| Text.DecimalRoundTrip | fitness-tracker/public/calendar.php:190 | printed digits read back as the number |
| Text.NatToDecimalInjective | fitness-tracker/public/calendar.php:190 | distinct numbers print differently |
| Text.ZeroPadded | fitness-tracker/public/calendar.php:129 | `sprintf('%0Nd', n)` has width `max(N, digits)`, only digits, and the value `n` |
| Text.PaddedWidth | fitness-tracker/public/calendar.php:129 | a number below `10^N` pads to exactly `N` characters |
| Text.TwoDigitPadding | fitness-tracker/public/calendar.php:129 | `%02d` below 100 is the tens digit followed by the units digit |
| Hex.Bin2Hex | fitness-tracker/app/models/User.php:137 | two lower-case hex digits per byte |
| Hex.HexRoundTrip | fitness-tracker/app/models/User.php:137 | decoding the hex gives the bytes back |
| Hex.Bin2HexInjective | fitness-tracker/app/models/User.php:137 | distinct byte strings never share a token |

## Left out

- **Databases.** SQL and PDO access is not modelled. `findByUsername` is a parameter (`users`). The users table that `updatePassword` writes is not kept: only its outcome (success, or the database exception caught) and its log line are. `TrainingSession.php`, `BodyMetric.php`, `SessionType.php`, `database.php`, `User::create` and `usernameExists` are not part of this model.
- **Cryptography and randomness.**
  - `random_bytes`, `md5`, `hash('sha256', …)` and `password_verify` are parameters. Their internals and the exceptions `random_bytes` can throw are not modelled.
  - SHA-256 is assumed injective only where a lemma says so (`ResetTokens.Injective`).
  - `hash_equals` is plain string equality, since timing cannot be expressed.
- **Clock and date library.** The clock is the `now` parameter, in integer seconds.
  - An expiry time stored through `date`/`strtotime` is that integer.
  - The calendar's first weekday and `daysInMonth` come from `mktime`/`date` and are parameters of `Calendar.GridCells`.
  - `Validator::date` uses `DateTime` and is not part of this model.
- **PHP runtime.** The session and cookie machinery is not modelled: the `ini_set` options, the cookie flags, and `setcookie` expiring the cookie in `destroy`. Identifiers are abstract numbers from a counter. `header` plus `exit`, `http_response_code` and `die` become `Response` values.
- **The `requireGuest` call at the top of login.php** (line 15) is `Auth.RequireGuest`. The page model starts at the POST branch.
- **Logger file handling.** `write`, `rotate` and gzip compression are not modelled. An entry records its file, level and line fields; `Logging.Line` applies the masking to an entry.
- **Floating point.**
  - The `weight`/`bodyFat` validators are not modelled.
  - PHP `round` on the float quotients for the average and the percentage is `Progress.RoundDiv`, exact rational rounding half away from zero. Float rounding of those quotients is not modelled.
  - The weight columns of the metric rows are not kept.
- **Oracles.**
  - `filter_var(…, FILTER_VALIDATE_EMAIL)` is the `isEmail` parameter of `Validation.EmailError`.
  - The HTML `pattern` attribute and the JavaScript e-mail regular expression are the `patternOk`/`emailOk` inputs of `ClientScript.ValidateInput`.
  - `file_exists` is the `fileExists` parameter.
- **Characters.** Strings are sequences of characters. `htmlspecialchars` reads each character as one byte of UTF-8 input, and JavaScript lengths count characters. There is no Unicode beyond the character classes named.
- **Session values.** These are null, integers, strings and throttle records. A value of another type under a throttle key reads as no record (`Auth.Stored`).
- LogoutPage.HandleLogout: requires the session's `user_id` to be an integer or absent, as the `?int` return type of `getUserId` demands.
- **Array-valued request fields.** Every POST and GET field (`username`, `password`, `csrf_token`, `action`, `token` and the rest) is modelled as a string. PHP also accepts an array-valued field such as `csrf_token[]=x`. Such a field reaches a `string`-typed parameter or `trim` and throws an uncaught `TypeError`: `Session::validateCsrfToken` through `Auth::validateCsrf`, `trim` in login.php and reset-password.php, and `Validator::password`. The request then fails with a 500, with no log line and no 403. The model does not capture this path.
- **Multibyte and integer edge cases.** PHP `basename`'s multibyte and locale behaviour is not modelled. PHP integer overflow is not modelled; integers are unbounded.
- **Browser and page glue.**
  - The DOM and event wiring of app.js is not modelled. This includes date clamping with JavaScript `Date` and `debounce`.
  - `csrfField` and all HTML rendering are not modelled.
  - dashboard.php beyond its intensity badge, register.php, log-session.php, log-weight.php, nav.php and index.php are not part of this model.
- **Concurrency.** Simultaneous requests on one session, one throttle record or one token row are not modelled; the model is sequential.
- ResetTokens.PasswordResets.Verify: the `SELECT` has no `try`/`catch` in User.php, so a `PDOException` from it escapes the request; the model assumes it succeeds.
- ResetTokens.PasswordResets.DeleteByHash: likewise uncaught; the model assumes the `DELETE` succeeds.
- ResetTokens.PasswordResets.DeleteByUserId: likewise uncaught; the model assumes the `DELETE` succeeds, so it does not capture a reset in which `updatePassword` has changed the password and the deletion then throws, leaving the token in place.
- ResetTokens.PasswordResets.Verify: when several rows share a hash, `LIMIT 1` picks one of them. The model states the outcome as a relation (`VerifyOutcome`) that any choice satisfies.
