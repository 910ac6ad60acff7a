# express-scaffold authentication core, in Dafny

This project models the refresh-token lifecycle of the express-scaffold API server and the small
pure helpers around it. The source is a TypeScript/Express application backed by a Prisma
database. The model covers:

- **Issuance.** Access tokens are signed, short-lived (3h) and never stored. Refresh tokens are
  signed for 7 days. Each one gets a row in the refresh-token table holding a one-way digest of
  the token, the client's truncated IP address, its user agent and a stored expiry.
- **The validation pipeline** shared by `refreshToken`, `deauthenticateUser` and the older
  `logoutService`. It is a short-circuiting chain of guards:
  - empty token;
  - signature and `exp` claim (section 4.1.4 of RFC 7519);
  - row lookup;
  - `is_active`;
  - stored `expires_at`;
  - device binding (truncated address and exact user agent);
  - digest comparison.

  After the guards it either mints an access token from the *live* user row (refresh) or
  revokes the row (logout).
- **The two tables.** Each is a class holding a `map` from id to row. The repository operations
  are methods that update the map in place. The unique email index of the user table is kept as
  a second map.
- **The expiry sweeper.** This is the body of the scheduled cleanup job: one bulk update that
  revokes every row whose `expires_at` has passed and reports how many rows it matched.
- **Registration, login and password change.** Both the `auth.service.ts` versions and the
  per-route services.
- **The pure helpers:**
  - IP truncation;
  - the bearer-header and claim-versus-store check of the authentication middleware;
  - the role allow-list;
  - the body-size parser and its Content-Length limit (section 8.6 of RFC 9110);
  - the registration and login field rules;
  - the error classes with their status codes, names and default messages.

The environment becomes explicit parameters:

- the clock is an integer `nowMs`;
- the result of `jwt.verify` on the presented token is a `Verification` value (`Jwt.Verify` is
  the reference for it);
- bcrypt is `Hashing.Hash`/`Hashing.Compare`, with `Compare(s, Hash(s, salt))`;
- uuid draws and salts are parameters;
- the address parser's verdict is a `ClientIp` value;
- `isEmail` is a predicate parameter.

Errors that the source throws are `Result` failures whose `Thrown` value carries the source's
own class, status, name and message.

Some behaviours of the code are stated as lemmas because they matter for users of the system:

- **The sweeper re-counts and re-stamps.** Its filter has no `is_active` condition, so a second
  run re-counts already-revoked expired rows and re-stamps their `revoked_at`. Only the
  `is_active` projection is idempotent (`CleanupExpiredTokens.SecondSweepRecounts`,
  `LaterSweepRestamps`, `SweepActiveIdempotent`).
- **No user agent means the token is unusable.** A client that sends no user agent gets a row
  that says "Unknown Device" but presents "". Its token can never refresh or log out
  (`AuthService.NoAgentNeverValidates`).
- **Refresh does not consume the token.** `AuthService.RefreshToken` is a function of the two
  tables and writes neither. A freshly issued token renews every time while its claim verifies
  (`AuthService.RenewalRepeatable`).
- **The stored-expiry guard is nearly shadowed.** When the stored expiry and the signed claim are
  computed from the same clock reading, the claim lapses no later than the stored expiry
  (`TokenGenerations.ClaimExpiresFirst`), so the stored-expiry guard does not fire for such a
  token. The code reads the clock twice (tokenGenerations.ts:53 and inside `jwt.sign` at :55);
  when the two readings straddle a second boundary the claim can outlive the stored expiry by
  less than a second, and within that window the stored-expiry guard does fire.
- **IPv4-mapped clients share one binding.** An IPv6 address whose first four groups are zero
  (every IPv4-mapped address such as `::ffff:203.0.113.77`) truncates to `::`. All such clients
  therefore share one device binding (`TruncateIp.Ipv6ZeroPrefixExample`).

## Model

| member | source | states |
|---|---|---|
| CustomErrors.NewAppError | src/utils/customErrors.ts:1-12 | an AppError is always operational, carries the given message, and defaults to status 500 and name "AppError" |
| CustomErrors.New | src/utils/customErrors.ts:14-54 | each subclass fixes its status code and name; a missing message falls back to the class's non-empty default |
| CustomErrors.StatusFollowsClass | src/utils/customErrors.ts:14-54 | the status table agrees with the classification: 400 exactly for client-input errors, 401 for authentication and token errors, 403 forbidden, 404 not found, 500 for the base class |
| CustomErrors.NamesIdentifyClasses | src/utils/customErrors.ts:14-54 | no two error classes share a `name` (EmptyTokenError's is "TokenError") |
| Hashing.Hash | src/utils/tokenHashing.ts:3-13 | a digest keeps its salt, and the secret it was made from always compares equal to it |
| Numerals.DecimalRoundTrip | src/utils/truncateIP.ts:13 | reading back the decimal numeral printed for a number gives that number |
| Strings.Trim | src/v1/validators/authValidationSchema.ts:26 | the result is a contiguous part of the input with only white space before and after it, has no white space at either end, and is empty exactly when the input is blank |
| Strings.SplitJoin | src/v1/middlewares/auth.middleware.ts:25 | joining the fields of `split(sep)` with `sep` gives back the string |
| Strings.SplitAtSeparator | src/v1/middlewares/auth.middleware.ts:25 | a separator-free word followed by the separator is the first field of the split |
| Strings.SplitWithoutSeparator | src/v1/middlewares/auth.middleware.ts:25 | a string without the separator splits into itself alone |
| Jwt.Sign | src/utils/tokenGenerations.ts:28-30 | a signed token carries the claims and key given, `iat` the current second and `exp` = `iat` + time-to-live |
| Jwt.Verify | src/v1/services/auth.service.ts:283-293 | verification succeeds, with the signed claims, exactly when the key is non-empty and matches and the current second is before `exp`; it reports expiry, with `expiredAt` = `exp` in ms, exactly when the key matches and `exp` has been reached |
| Jwt.VerifiedEarlier | src/v1/services/auth.service.ts:283-293 | a token that verifies at some time verifies identically at every earlier time |
| TruncateIp.ZeroLastOctet | src/utils/truncateIP.ts:7-14 | the first three octets are kept and the last becomes 0 |
| TruncateIp.ZeroLastGroups | src/utils/truncateIP.ts:16-24 | the first four groups are kept and the last four become 0 |
| TruncateIp.BytesRoundTrip | src/utils/truncateIP.ts:25-29 | splitting 16-bit groups into high and low bytes and joining them again loses nothing |
| TruncateIp.Truncate | src/utils/truncateIP.ts:3-36 | an unparsable address or an unknown kind is returned unchanged; IPv4 is the first three octets then ".0"; IPv6 is the rendering of the first four groups followed by four zero groups |
| TruncateIp.LastOctetIgnored | src/utils/truncateIP.ts:13 | two IPv4 addresses differing only in the last octet truncate to the same text |
| TruncateIp.LastGroupsIgnored | src/utils/truncateIP.ts:19-29 | two IPv6 addresses differing only in the last four groups truncate to the same text |
| TruncateIp.TruncationIdempotent | src/utils/truncateIP.ts:13-23 | truncating an already truncated octet or group sequence changes nothing |
| TruncateIp.DocumentationAddressExample | src/utils/truncateIP.ts:7-14 | 203.0.113.77 truncates to 203.0.113.0 |
| TruncateIp.Ipv6Example | src/utils/truncateIP.ts:25-29 | 2001:db8:0:0:0:0:0:0 renders as "2001:db8::" |
| TruncateIp.Ipv6ZeroPrefixExample | src/utils/truncateIP.ts:16-29 | every IPv6 address whose first four groups are zero truncates to "::" |
| AuthRepository.Info | src/v1/repositories/auth.repository.ts:12-25 | the selected columns are id, names, email and role, copied from the row (no password) |
| AuthRepository.Revoked | src/v1/repositories/auth.repository.ts:71-81 | the revoked row is inactive with `revoked_at` = now, and every other column is unchanged |
| AuthRepository.RevokeTwice | src/v1/repositories/auth.repository.ts:71-78 | revoking a revoked row leaves it inactive; only the latest `revoked_at` remains |
| AuthRepository.UserStore.GetUserByEmail | src/v1/repositories/auth.repository.ts:4-10 | a user is returned exactly when one has that email, and it is the stored row |
| AuthRepository.UserStore.GetUserById | src/v1/repositories/auth.repository.ts:12-25 | a result is returned exactly when the id is stored, and it is that row without the password |
| AuthRepository.UserStore.CreateUser | src/v1/repositories/auth.repository.ts:27-33 | the insert succeeds exactly when neither the id nor the email is taken; the new row is added and nothing else changes; otherwise a unique-constraint failure with no change |
| AuthRepository.UserStore.UpdateUser | src/v1/repositories/auth.repository.ts:35-45 | an unknown id fails with record-not-found; an email taken by another user fails with unique-constraint; otherwise exactly the given columns of that row are written |
| AuthRepository.UserStore.DeleteUser | src/v1/repositories/auth.repository.ts:47-53 | exactly the user with that id is removed; an unknown id fails with no change |
| AuthRepository.UserStore.UpdatePassword | src/v1/repositories/auth.repository.ts:55-62 | only that user's password column changes; an unknown id fails with no change |
| AuthRepository.TokenStore.VerifyRefreshToken | src/v1/repositories/auth.repository.ts:64-69 | the row keyed by the id, or none, and the table is only read |
| AuthRepository.TokenStore.Create | src/utils/tokenGenerations.ts:61-71 | the row is inserted under its own id exactly when that id is new; otherwise a unique-constraint failure with no change |
| AuthRepository.TokenStore.RevokeRefreshToken | src/v1/repositories/auth.repository.ts:71-81 | that row becomes inactive with `revoked_at` = now and no other row changes; an unknown id fails with record-not-found |
| TokenGenerations.GenerateAccessToken | src/utils/tokenGenerations.ts:15-31 | an unset secret fails first, then an empty user_id, email or role; success exactly otherwise, with the payload {user_id, email, role}, a 3h lifetime, verifying under the secret |
| TokenGenerations.RefreshJwt | src/utils/tokenGenerations.ts:51-57 | the refresh token signs {token_id, user_id} with a 7-day lifetime |
| TokenGenerations.IssuedRow | src/utils/tokenGenerations.ts:51-71 | the row has the token's id and user, the truncated address, expiry now + 604800000 ms, a digest that compares equal to the raw token, is active and unrevoked; an empty user agent is stored as "Unknown Device" in both agent columns |
| TokenGenerations.GenerateRefreshToken | src/utils/tokenGenerations.ts:42-74 | an unset secret fails with its message and no row written; a taken id fails with the unique-constraint error and no change; otherwise exactly the issued row is inserted and the raw token is returned |
| TokenGenerations.ClaimExpiresFirst | src/utils/tokenGenerations.ts:53-57 | when the stored expiry and the claim are computed from one clock reading: while the claim verifies, the stored expiry has not passed |
| AuthService.Raise | src/v1/services/auth.service.ts:273-326 | the claim and stored expiry refusals are TokenExpiredError; malformed, revoked, device and digest refusals are AuthenticationError; every thrown AppError is 401 or 404 |
| AuthService.ValidateRefresh | src/v1/services/auth.service.ts:273-326 | each refusal happens exactly when every earlier guard passed and its own failed, in the source's order; `expires_at == now` passes; the device check passes exactly on the truncated address and the exact agent; success exactly when all guards pass, returning that row |
| AuthService.RefreshToken | src/v1/services/auth.service.ts:268-343 | an empty token is refused first; every pipeline refusal is thrown as its error; a missing user gives NotFound; when every guard passes and the user exists, the result is exactly the access token minted for the stored user's id, email and role (so an unset access secret gives its error); success only when all pass |
| AuthService.DeauthenticateUser | src/v1/services/auth.service.ts:161-229 | on any refusal the error is thrown and no row changes; on success only the presented row is revoked at now |
| AuthService.RevokedStaysRejected | src/v1/services/auth.service.ts:201-228 | after a row is revoked, every later refresh or logout with its token is refused as revoked, whatever the device or digest |
| AuthService.NoAgentNeverValidates | src/v1/services/auth.service.ts:312-317 | a token issued with no user agent, presented with none, never validates; if live it is refused as a device mismatch |
| AuthService.RenewalRepeatable | src/v1/services/auth.service.ts:295-342 | an issued token presented from its device renews at every time its claim still verifies |
| AuthService.FetchUserInfo | src/v1/services/auth.service.ts:231-247 | the user's public columns exactly when the id is stored, else NotFound "User not found" |
| AuthService.CheckCredentials | src/v1/services/auth.service.ts:124-133 | success exactly when the email is registered and the password matches its digest; an unknown email and a wrong password give the same "Invalid credentials" error |
| AuthService.RegisterUser | src/v1/services/auth.service.ts:67-116 | a taken email fails with RegistrationError and no write; a taken user id fails with the unique-constraint error and leaves the users table unchanged; otherwise the user row holds the hashed password, the access token carries the new user's claims, and one refresh row bound to the truncated address is inserted |
| AuthService.AuthenticateUser | src/v1/services/auth.service.ts:118-159 | failed credentials write nothing; with valid credentials an unset refresh secret or a taken token id fails with its error and writes nothing; success inserts one refresh row bound to the truncated address and agent and returns an access token for the stored user |
| AuthService.UpdateUserPassword | src/v1/services/auth.service.ts:249-266 | mismatching passwords are refused with no write; otherwise only that user's password becomes a digest of the new password |
| LogoutService.Logout | src/v1/services/authentication/logout.service.ts:11-89 | the source's messages for each refusal, with no row written; on success exactly the presented row is revoked at now and `true` is returned |
| RegisterService.Register | src/v1/services/authentication/register.service.ts:10-58 | a taken email fails with no write; a taken user id fails with the unique-constraint error and leaves the users table unchanged; the new user has role "ADMIN" and a digest of the password; the refresh row is bound to the truncated address and agent; the returned user is the created row |
| LoginService.Login | src/v1/services/authentication/login.service.ts:11-51 | unknown email and wrong password fail alike with no row inserted; with valid credentials an unset refresh secret or a taken token id fails with its error and inserts nothing; success inserts one bound refresh row and returns tokens for the stored user |
| UpdatePassService.UpdatePass | src/v1/services/authentication/updatePass.service.ts:4-21 | mismatching passwords throw "Passwords do not match" with no change; success returns true and only that user's password changes, to a digest of the new password |
| CleanupExpiredTokens.ExpiredIds | src/cron/cleanupExpiredTokens.cron.ts:17-22 | an id is matched exactly when its row's `expires_at` is before now, whether or not the row is active |
| CleanupExpiredTokens.SweepRow | src/cron/cleanupExpiredTokens.cron.ts:17-27 | an expired row becomes inactive with `revoked_at` = now; any other row is unchanged |
| CleanupExpiredTokens.Swept | src/cron/cleanupExpiredTokens.cron.ts:17-27 | the key set is preserved, every expired row is revoked at now, and every other row is untouched |
| CleanupExpiredTokens.RevokeExpired | src/cron/cleanupExpiredTokens.cron.ts:17-29 | the table becomes the swept table and the count is the number of expired rows, inactive ones included |
| CleanupExpiredTokens.CleanedMessage | src/cron/cleanupExpiredTokens.cron.ts:29 | the log line is the fixed prefix, the decimal count (which reads back as the count) and the fixed suffix |
| CleanupExpiredTokens.CleanupTick | src/cron/cleanupExpiredTokens.cron.ts:5-33 | the start line is logged; with the store available it sweeps and logs the count; a store failure is logged and nothing changes or propagates |
| CleanupExpiredTokens.SecondSweepRecounts | src/cron/cleanupExpiredTokens.cron.ts:18-22 | a second sweep at the same time matches the same rows again and reports the same count, already-revoked rows included |
| CleanupExpiredTokens.LaterSweepRestamps | src/cron/cleanupExpiredTokens.cron.ts:23-26 | a later sweep re-stamps `revoked_at` on rows an earlier sweep already revoked, and the matched set only grows |
| CleanupExpiredTokens.SweepActiveIdempotent | src/cron/cleanupExpiredTokens.cron.ts:17-27 | a second sweep at the same time leaves every `is_active` value unchanged |
| AuthMiddleware.BearerToken | src/v1/middlewares/auth.middleware.ts:25 | the token is the space-free field right after "Bearer ", ending at the next space or the end of the header |
| AuthMiddleware.BearerTokenOf | src/v1/middlewares/auth.middleware.ts:25 | for a space-free token, the header "Bearer " + token yields that token back |
| AuthMiddleware.Authenticate | src/v1/middlewares/auth.middleware.ts:14-62 | a missing or non-bearer header gives 401; an expired token gives 401 "Access token expired"; any other failure, including a missing user or a claim/store mismatch, gives 403; next exactly when all checks pass, with the stored id, email and role |
| AuthMiddleware.IssuedTokenAdmits | src/v1/middlewares/auth.middleware.ts:37-55 | an access token issued for a stored user and still within its lifetime is admitted with that user |
| AuthMiddleware.StaleClaimsRefused | src/v1/middlewares/auth.middleware.ts:41-47 | a verified token whose email or role no longer matches the stored user is refused with 403 |
| RoleMiddleware.CheckRole | src/v1/middlewares/role.middleware.ts:3-13 | proceed exactly when a user is present and its role is allowed; otherwise 403 with the fixed message |
| RoleMiddleware.EmptyAllowListDeniesAll | src/v1/middlewares/role.middleware.ts:3-6 | an empty allow-list denies every request |
| BodySize.ParseInt | src/v1/middlewares/bodySize.middleware.ts:13 | decimal `parseInt` is NaN exactly when no digit follows the leading white space and the optional sign; in particular the empty string is NaN |
| BodySize.ParseIntReadsDigitRun | src/v1/middlewares/bodySize.middleware.ts:13 | after leading white space and an optional sign, `parseInt` reads the digit run with that sign and ignores whatever follows it |
| BodySize.ParseIntWithoutDigitRun | src/v1/middlewares/bodySize.middleware.ts:13 | blank text, and text whose first other character starts no signed digit run ("abc", "-", "+x"), is read as NaN |
| BodySize.ParseIntOfDigits | src/v1/middlewares/bodySize.middleware.ts:13 | a non-empty string of digits is read as its decimal value |
| BodySize.MatchSize | src/v1/middlewares/bodySize.middleware.ts:32 | a match is a non-empty digit run followed by an all-lowercase-letter unit, and the parts concatenate to the input |
| BodySize.MatchSizeComplete | src/v1/middlewares/bodySize.middleware.ts:32 | every digits-then-letters string matches with exactly those parts |
| BodySize.Multiplier | src/v1/middlewares/bodySize.middleware.ts:31-37 | b, kb, mb and gb are 1, 1024, 1024² and 1024³; "constructor" finds an inherited object property and gives NaN; any other unit is 1 |
| BodySize.ParseSize | src/v1/middlewares/bodySize.middleware.ts:30-38 | a matching size is its amount times its unit's multiplier; a non-matching one is `parseInt` of the input |
| BodySize.ParseIntIgnoresCase | src/v1/middlewares/bodySize.middleware.ts:32-34 | lowercasing does not change what `parseInt` reads |
| BodySize.ParseSizeIgnoresCase | src/v1/middlewares/bodySize.middleware.ts:32 | "10MB" and "10mb" parse alike: the size of a string equals the size of its lowercase form |
| BodySize.SizeWithUnit | src/v1/middlewares/bodySize.middleware.ts:36-37 | digits followed by a unit parse as their value times the unit's multiplier |
| BodySize.DigitsOnlySize | src/v1/middlewares/bodySize.middleware.ts:34 | an all-digit size with no unit is read as its decimal value |
| BodySize.DefaultLimit | src/v1/middlewares/bodySize.middleware.ts:8 | the default "10mb" is 10485760 bytes |
| BodySize.BodySizeLimit | src/v1/middlewares/bodySize.middleware.ts:8-28 | 413 with the limit text exactly when a Content-Length is present and parses strictly above the limit; otherwise proceed |
| BodySize.ContentLengthAgainstLimit | src/v1/middlewares/bodySize.middleware.ts:12-24 | a digit Content-Length is refused exactly when its value is above the limit; equality passes |
| BodySize.DefaultLimitBoundary | src/v1/middlewares/bodySize.middleware.ts:8-24 | under the default limit, a Content-Length of 10485760 passes and 10485761 is refused |
| AuthValidation.CountPositive | src/v1/validators/authValidationSchema.ts:52-61 | a character class has a positive count exactly when some character of the string is in it |
| AuthValidation.DisplayLength | src/v1/validators/authValidationSchema.ts:19-25 | the length the validator measures never exceeds the number of code points, and equals it for text without variation selectors |
| AuthValidation.Utf16Length | src/v1/validators/authValidationSchema.ts:52-59 | the UTF-16 length is at least the number of code points |
| AuthValidation.UmindanaoEmailParts | src/v1/validators/authValidationSchema.ts:4 | initial "." surname "." six digits "@umindanao.edu.ph" is accepted for any lowercase initial and non-empty lowercase surname |
| AuthValidation.UmindanaoEmailSplits | src/v1/validators/authValidationSchema.ts:4 | every accepted email is exactly that concatenation: a lowercase initial, a non-empty lowercase surname, six digits and the domain |
| AuthValidation.EmailErrors | src/v1/validators/authValidationSchema.ts:2-14 | no error exactly when the email is present, email-shaped and of the university pattern |
| AuthValidation.NameErrors | src/v1/validators/authValidationSchema.ts:15-40 | no error exactly when the name is present and 2..50 characters long |
| AuthValidation.PasswordErrors | src/v1/validators/authValidationSchema.ts:41-63 | no error exactly when the password is present, 8..128 characters long, and has a lowercase letter, an uppercase letter, a digit and a symbol |
| AuthValidation.ConfirmErrors | src/v1/validators/authValidationSchema.ts:64-75 | no error exactly when the confirmation is present and 8..128 characters long |
| AuthValidation.RegistrationErrors | src/v1/validators/authValidationSchema.ts:1-76 | a registration is accepted exactly when every field passes its own rules |
| AuthValidation.Sanitized | src/v1/validators/authValidationSchema.ts:15-40 | each name becomes the part of the entered name between its leading and trailing white space, with no white space at either end, and empty exactly when blank; the other fields are untouched |
| AuthValidation.LoginErrors | src/v1/validators/authValidationSchema.ts:78-92 | login is accepted exactly when the email is present and email-shaped and the password is present; no strength or length rule |
| AuthValidation.StrongExample | src/v1/validators/authValidationSchema.ts:41-63 | "Aa1!aaaa" meets the length and strength rules |
| AuthValidation.NoSymbolNotStrong | src/v1/validators/authValidationSchema.ts:52-61 | a password with no symbol is never strong, whatever its length |
| AuthValidation.BlankNamePassesRules | src/v1/validators/authValidationSchema.ts:15-27 | a two-space name passes the name rules, and trimming then turns it into the empty string |
| Scenario.SessionLifecycle | src/v1/services/auth.service.ts:67-343 | for any registration with fresh ids, an unused email and both secrets set, and any later time before the refresh claim expires: registration succeeds; a refresh from the registering device succeeds with the stored user's claims; the same token from any other user agent is refused as a device mismatch; logout succeeds; a refresh after logout is refused as revoked |
| Scenario.Enroll | src/v1/services/auth.service.ts:67-116 | a successful registration leaves a live, matching token row bound to the registering device, and the refresh token verifies to its own token id and user id |
| Scenario.IssuedTokenLive | src/utils/tokenGenerations.ts:53-71 | a refresh token just issued and still verifying names its own row, which is unexpired and whose digest matches the token |
| Scenario.RenewElsewhere | src/v1/services/auth.service.ts:312-317 | a live token presented from a different user agent is refused with the device error |

## Left out

- Controllers, routes, response helpers, the error, cache-control, request-id, timeout and
  rate-limit middlewares, and application wiring and configuration are not part of this model.
  They are HTTP and process plumbing.
- `userService` and the admin controller repeat `getUserById`. `FetchUserInfo` stands for them.
- The JSON Web Token library is modelled only by the behaviour the core relies on (`Jwt.Sign`,
  `Jwt.Verify`). The wire format in `Jwt.Compact` is a stand-in, not base64url JSON.
  Access-token verification in the middleware is a function parameter.
- bcrypt is a salted stand-in digest (`Hashing.OneWay`). Only `Compare(s, Hash(s, salt))` is
  relied on. Work factors and timing are not modelled.
- `Hashing.Compare` reads the whole string, while bcryptjs uses only the first 72 bytes of its
  input. For a refresh token that is the fixed header and the first characters of the token id,
  so in the source the digest checks (auth.service.ts:219-221 and 319-321) cannot fail for a
  token the server signed whose id names the row. The model's `HashMismatch` refusal is stricter
  than the source there.
- uuid generation and salt randomness are parameters. A drawn id that is already taken fails the
  insert with the unique-constraint error, as the database would.
- ipaddr.js parsing is a parameter (`ClientIp.parsed`).
- `TruncateIp.Truncate`: the IPv6 text is the compact rendering of a truncated address as
  ipaddr.js prints it: leading groups without zero padding, then "::". This is stated only for
  the tail-zero addresses truncation produces, not for IPv6 text in general.
- express-validator's `isEmail` is a predicate parameter. `normalizeEmail` is not modelled:
  sanitized emails are kept as entered.
- `AuthValidation.DisplayLength` counts code points minus the variation selectors U+FE0E and
  U+FE0F, which is exactly what validator.js's `isLength` computes.
- `BodySize.ParseInt` works on unbounded integers. Floating-point precision loss for very long
  digit strings is not modelled.
- `TokenGenerations.ClaimExpiresFirst`: the stored expiry and the signed claim are computed from one
  clock reading `nowMs`. The source reads the clock twice, so in the source the claim can outlive
  the stored expiry by less than a second. `AuthService.RenewalRepeatable`,
  `Scenario.IssuedTokenLive` and `Scenario.SessionLifecycle` rest on the same single reading.
- `BodySize.Lower` lowercases ASCII letters only. Other Unicode case mappings are not modelled.
- Wall-clock `Date` values are integer milliseconds. node-cron scheduling and the interleaving of
  concurrent refresh, logout and sweep are not modelled. `CleanupTick` is one tick, with the
  store's availability as a parameter.
- `AuthMiddleware.Authenticate`: a database failure during the user lookup is not modelled; the
  source's catch turns it into 403 like any other failure.
- The guards at auth.service.ts:188-193 and logout.service.ts:38-43 cannot fire once
  verification succeeded, so they have no branch of their own.
- A verified claim without `token_id` (an access token presented as a refresh token) makes the
  database client reject the lookup. The model raises that as `StoreFailure(InvalidQuery)`.
- Field-name drift: tokenGenerations.ts writes the digest into `token`, while auth.service.ts
  reads `token_hash`. The model keeps one `token_hash` field, so this mismatch is collapsed.
- `RegisterUser`, `RegisterService.Register`: a failure after the user row is written (an unset
  secret, say) leaves that row in place, as the source does; no transaction is modelled.
- `LoginService.Login` returns the full stored user row, password digest included, as the
  source does.
