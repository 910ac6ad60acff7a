/**
 * src/v1/services/auth.service.ts: registration, login, the refresh-token validation
 * pipeline with its two uses (refresh and logout), user info and password update.
 *
 * Environment made explicit: `nowMs` is the clock, `verified` is what `jwt.verify` returned
 * for the presented token under the refresh secret, `secrets` are the two signing secrets,
 * and the `*Id`/`*Salt` parameters are the uuid and salt draws.
 */
module AuthService {
  import opened Wrappers
  import opened CustomErrors
  import opened Hashing
  import opened Jwt
  import opened AuthRepository
  import opened TokenGenerations
  import opened TruncateIp

  /** The two signing secrets as read from the environment. */
  datatype Secrets = Secrets(access: Option<string>, refresh: Option<string>)

  /** What registration and login hand back. */
  datatype SessionUser = SessionUser(id: Id, email: string, role: string)
  datatype Session = Session(accessToken: Signed, refreshToken: string, user: SessionUser)
  datatype PasswordUpdateResult = PasswordUpdateResult(updatedAt: nat, userId: Id)

  /** Why a presented refresh token is refused: one tag per guard of the pipeline. */
  datatype Rejection =
    | EmptyTokenGiven
    | ClaimExpired(expiredAt: nat)
    | Malformed
    | NoTokenId
    | TokenNotFound
    | RevokedToken
    | StoredExpired(expiresAt: int)
    | DeviceMismatch
    | HashMismatch

  /** The error the source throws for each refusal. */
  function Raise(reason: Rejection): (e: Thrown)
    ensures reason.ClaimExpired? || reason.StoredExpired? <==> e.TokenExpired?
    ensures reason.Malformed? || reason.RevokedToken? || reason.DeviceMismatch? || reason.HashMismatch?
            <==> e.App? && e.error.name == "AuthenticationError"
    ensures e.App? ==> e.error.statusCode in {401, 404}
  {
    match reason
    case EmptyTokenGiven => EmptyToken("Refresh token is required")
    case ClaimExpired(at) => TokenExpired("Refresh token has expired", at)
    case Malformed => Auth("Invalid refresh token format")
    case NoTokenId => StoreFailure(InvalidQuery)
    case TokenNotFound => NotFound("Refresh token not found")
    case RevokedToken => Auth("Refresh token has been revoked")
    case StoredExpired(at) => TokenExpired("Refresh token has expired", at)
    case DeviceMismatch => Auth("Refresh token is not valid for this device")
    case HashMismatch => Auth("Invalid refresh token")
  }

  /** The presented token is non-empty and verified to a refresh claim. */
  predicate Presented(raw: string, verified: Verification) {
    raw != "" && verified.Verified? && verified.claims.RefreshClaims?
  }

  /** ... and its token_id names a stored row. */
  predicate Located(raw: string, verified: Verification, rows: map<Id, TokenRow>) {
    Presented(raw, verified) && verified.claims.token_id in rows
  }

  function RowOf(verified: Verification, rows: map<Id, TokenRow>): TokenRow
    requires verified.Verified? && verified.claims.RefreshClaims? && verified.claims.token_id in rows
  {
    rows[verified.claims.token_id]
  }

  /** The device binding: the truncated presented address and the exact user agent. */
  predicate SameDevice(row: TokenRow, ip: ClientIp, userAgent: string) {
    row.ip_address == Truncate(ip) && row.user_agent == userAgent
  }

  /** A located row that is active and whose stored expiry has not passed. */
  predicate Live(raw: string, verified: Verification, rows: map<Id, TokenRow>, nowMs: nat) {
    Located(raw, verified, rows) && RowOf(verified, rows).is_active && !(RowOf(verified, rows).expires_at < nowMs)
  }

  /** A live row presented from its own device. */
  predicate OnDevice(raw: string, verified: Verification, rows: map<Id, TokenRow>, nowMs: nat, ip: ClientIp, userAgent: string) {
    Live(raw, verified, rows, nowMs) && SameDevice(RowOf(verified, rows), ip, userAgent)
  }

  /**
   * The guard chain shared by `refreshToken`, `deauthenticateUser` and `logoutService`.
   * Each outcome holds exactly when every earlier guard passed and its own failed.
   */
  function ValidateRefresh(raw: string, verified: Verification, ip: ClientIp, userAgent: string,
                           nowMs: nat, rows: map<Id, TokenRow>): (r: Result<TokenRow, Rejection>)
    ensures r == Err(EmptyTokenGiven) <==> raw == ""
    ensures (r.Err? && r.error.ClaimExpired?) <==> raw != "" && verified.Expired?
    ensures r.Err? && r.error.ClaimExpired? ==> r.error.expiredAt == verified.expiredAt
    ensures r == Err(Malformed) <==> raw != "" && verified.Invalid?
    ensures r == Err(NoTokenId) <==> raw != "" && verified.Verified? && !verified.claims.RefreshClaims?
    ensures r == Err(TokenNotFound) <==> Presented(raw, verified) && verified.claims.token_id !in rows
    ensures r == Err(RevokedToken) <==> Located(raw, verified, rows) && !RowOf(verified, rows).is_active
    ensures (r.Err? && r.error.StoredExpired?) <==>
              Located(raw, verified, rows) && RowOf(verified, rows).is_active && RowOf(verified, rows).expires_at < nowMs
    ensures r.Err? && r.error.StoredExpired? ==> r.error.expiresAt == RowOf(verified, rows).expires_at
    ensures r == Err(DeviceMismatch) <==>
              Live(raw, verified, rows, nowMs) && !SameDevice(RowOf(verified, rows), ip, userAgent)
    ensures r == Err(HashMismatch) <==>
              OnDevice(raw, verified, rows, nowMs, ip, userAgent) && !Compare(raw, RowOf(verified, rows).token_hash)
    ensures r.Ok? <==> OnDevice(raw, verified, rows, nowMs, ip, userAgent) && Compare(raw, RowOf(verified, rows).token_hash)
    ensures r.Ok? ==> r.value == RowOf(verified, rows)
  {
    if raw == "" then Err(EmptyTokenGiven)
    else match verified
      case Expired(at) => Err(ClaimExpired(at))
      case Invalid => Err(Malformed)
      case Verified(claims) =>
        if !claims.RefreshClaims? then Err(NoTokenId)
        else if claims.token_id !in rows then Err(TokenNotFound)
        else
          var row := rows[claims.token_id];
          if !row.is_active then Err(RevokedToken)
          else if row.expires_at < nowMs then Err(StoredExpired(row.expires_at))
          else if row.ip_address != Truncate(ip) || row.user_agent != userAgent then Err(DeviceMismatch)
          else if !Compare(raw, row.token_hash) then Err(HashMismatch)
          else Ok(row)
  }

  /**
   * `refreshToken`: validate, then mint an access token from the live user row that the
   * claim's user_id names. Being a function over the two tables, it writes neither.
   */
  function RefreshToken(raw: string, verified: Verification, ip: ClientIp, userAgent: string, nowMs: nat,
                        secrets: Secrets, users: UserStore, tokens: TokenStore): (r: Result<Signed, Thrown>)
    reads users, tokens
    ensures raw == "" ==> r == Err(EmptyToken("Refresh token is required"))
    ensures ValidateRefresh(raw, verified, ip, userAgent, nowMs, tokens.rows).Err? ==>
              r == Err(Raise(ValidateRefresh(raw, verified, ip, userAgent, nowMs, tokens.rows).error))
    ensures ValidateRefresh(raw, verified, ip, userAgent, nowMs, tokens.rows).Ok? && verified.claims.user_id !in users.users ==>
              r == Err(NotFound("User not found"))
    ensures ValidateRefresh(raw, verified, ip, userAgent, nowMs, tokens.rows).Ok? && verified.claims.user_id in users.users ==>
              (var u := users.users[verified.claims.user_id];
               r == GenerateAccessToken(AccessPayload(u.id, u.email, u.role), secrets.access, nowMs))
    ensures (ValidateRefresh(raw, verified, ip, userAgent, nowMs, tokens.rows).Ok? && verified.claims.user_id in users.users
             && !Defined(secrets.access)) ==> r == Err(PlainError("JWT Access Token Secret is not defined."))
    ensures r.Ok? ==> ValidateRefresh(raw, verified, ip, userAgent, nowMs, tokens.rows).Ok?
    ensures r.Ok? ==> verified.claims.user_id in users.users && Defined(secrets.access)
    ensures r.Ok? ==>
              (var u := users.users[verified.claims.user_id];
               r.value.claims == AccessClaims(u.id, u.email, u.role) && r.value.key == secrets.access.value
               && r.value.exp == Seconds(nowMs) + AccessTtl)
  {
    var checked :- ValidateRefresh(raw, verified, ip, userAgent, nowMs, tokens.rows).MapFailure(Raise);
    match users.GetUserById(verified.claims.user_id)
    case None => Err(NotFound("User not found"))
    case Some(user) => GenerateAccessToken(AccessPayload(user.id, user.email, user.role), secrets.access, nowMs)
  }

  /**
   * `deauthenticateUser`: validate, then revoke the row the claim names. On any refusal
   * nothing is written; on success only that row changes.
   */
  method DeauthenticateUser(tokens: TokenStore, raw: string, verified: Verification, ip: ClientIp,
                            userAgent: string, nowMs: nat) returns (r: Result<(), Thrown>)
    requires tokens.Valid()
    modifies tokens
    ensures tokens.Valid()
    ensures raw == "" ==> r == Err(EmptyToken("Refresh token is required"))
    ensures var v := ValidateRefresh(raw, verified, ip, userAgent, nowMs, old(tokens.rows));
            v.Err? ==> r == Err(Raise(v.error)) && tokens.rows == old(tokens.rows)
    ensures var v := ValidateRefresh(raw, verified, ip, userAgent, nowMs, old(tokens.rows));
            v.Ok? ==> r.Ok? && tokens.rows == old(tokens.rows)[v.value.id := Revoked(v.value, nowMs)]
  {
    var checked := ValidateRefresh(raw, verified, ip, userAgent, nowMs, tokens.rows);
    if checked.Err? {
      r := Err(Raise(checked.error));
      return;
    }
    var revoked := tokens.RevokeRefreshToken(verified.claims.token_id, nowMs);
    r := Ok(());
  }

  /** Once its row is revoked, a token is refused as revoked by every later refresh or logout. */
  lemma RevokedStaysRejected(raw: string, verified: Verification, rows: map<Id, TokenRow>, revokedAt: int,
                             ip: ClientIp, userAgent: string, nowMs: nat)
    requires Located(raw, verified, rows)
    ensures var id := verified.claims.token_id;
            ValidateRefresh(raw, verified, ip, userAgent, nowMs, rows[id := Revoked(rows[id], revokedAt)]) == Err(RevokedToken)
  {
  }

  /**
   * A client that sends no user agent presents "" but its token row says "Unknown Device",
   * so its token can never pass the device check: refresh and logout always refuse it.
   */
  lemma NoAgentNeverValidates(raw: string, verified: Verification, rows: map<Id, TokenRow>, ip: ClientIp, nowMs: nat,
                              user_id: Id, issuedRaw: string, boundIp: string, issuedMs: nat, salt: nat)
    requires Presented(raw, verified)
    requires var id := verified.claims.token_id;
             id in rows && rows[id] == IssuedRow(id, user_id, issuedRaw, boundIp, "", issuedMs, salt)
    ensures !ValidateRefresh(raw, verified, ip, "", nowMs, rows).Ok?
    ensures Live(raw, verified, rows, nowMs) ==> ValidateRefresh(raw, verified, ip, "", nowMs, rows) == Err(DeviceMismatch)
  {
    assert RowOf(verified, rows).user_agent == UnknownDevice;
  }

  /**
   * Refresh does not consume the token: a token issued by `generateRefreshToken`, presented
   * from its device, renews every time its signed claim still verifies, because the claim
   * lapses no later than the stored expiry and the refresh writes nothing.
   */
  lemma RenewalRepeatable(tokens: TokenStore, users: UserStore, secrets: Secrets, tokenId: Id, user_id: Id,
                          ip: ClientIp, userAgent: string, issuedMs: nat, salt: nat, nowMs: nat)
    requires Defined(secrets.refresh) && Defined(secrets.access) && userAgent != ""
    requires user_id in users.users && users.users[user_id].id == user_id
    requires user_id != "" && users.users[user_id].email != "" && users.users[user_id].role != ""
    requires var s := RefreshJwt(tokenId, user_id, secrets.refresh.value, issuedMs);
             tokenId in tokens.rows
             && tokens.rows[tokenId] == IssuedRow(tokenId, user_id, Compact(s), Truncate(ip), userAgent, issuedMs, salt)
    requires Verify(RefreshJwt(tokenId, user_id, secrets.refresh.value, issuedMs), secrets.refresh.value, nowMs).Verified?
    ensures var s := RefreshJwt(tokenId, user_id, secrets.refresh.value, issuedMs);
            RefreshToken(Compact(s), Verify(s, secrets.refresh.value, nowMs), ip, userAgent, nowMs, secrets, users, tokens).Ok?
  {
    ClaimExpiresFirst(tokenId, user_id, secrets.refresh.value, Truncate(ip), userAgent, issuedMs, salt, nowMs);
  }

  /** `fetchUserInfo`: the user's id, names, email and role, or NotFound. */
  function FetchUserInfo(users: UserStore, userId: Id): (r: Result<UserInfo, Thrown>)
    reads users
    ensures r.Ok? <==> userId in users.users
    ensures r.Ok? ==> r.value == Info(users.users[userId])
    ensures r.Err? ==> r.error == NotFound("User not found")
  {
    match users.GetUserById(userId)
    case None => Err(NotFound("User not found"))
    case Some(info) => Ok(info)
  }

  /** The credential check of login: an unknown email and a wrong password are refused alike. */
  function CheckCredentials(users: UserStore, email: string, password: string): (r: Result<User, Thrown>)
    reads users
    requires users.Valid()
    ensures r.Ok? <==> EmailInUse(users.users, email) && Compare(password, users.GetUserByEmail(email).value.password)
    ensures r.Ok? ==> r.value.id in users.users && users.users[r.value.id] == r.value && r.value.email == email
    ensures r.Err? ==> r.error == Auth("Invalid credentials")
  {
    match users.GetUserByEmail(email)
    case None => Err(Auth("Invalid credentials"))
    case Some(user) =>
      if !Compare(password, user.password) then Err(Auth("Invalid credentials")) else Ok(user)
  }

  /**
   * `registerUser`: refuse a taken email; otherwise create the user with the hashed password,
   * mint the access token, then issue the refresh token bound to the truncated address.
   * A failure after the user row is written leaves that row in place.
   */
  method RegisterUser(users: UserStore, tokens: TokenStore, email: string, first_name: string, last_name: string,
                      password: string, role: string, ip: ClientIp, userAgent: string, secrets: Secrets,
                      nowMs: nat, userId: Id, tokenId: Id, passwordSalt: nat, tokenSalt: nat)
    returns (r: Result<Session, Thrown>)
    requires users.Valid() && tokens.Valid()
    modifies users, tokens
    ensures users.Valid() && tokens.Valid()
    ensures EmailInUse(old(users.users), email) ==>
              r == Err(Registration("Email already registered"))
              && users.users == old(users.users) && tokens.rows == old(tokens.rows)
    ensures r.Ok? <==>
              !EmailInUse(old(users.users), email) && userId !in old(users.users)
              && Defined(secrets.access) && userId != "" && email != "" && role != ""
              && Defined(secrets.refresh) && tokenId !in old(tokens.rows)
    ensures !EmailInUse(old(users.users), email) && userId in old(users.users) ==>
              r == Err(StoreFailure(UniqueViolation)) && users.users == old(users.users)
    ensures !EmailInUse(old(users.users), email) && userId !in old(users.users) ==>
              users.users == old(users.users)[userId := User(userId, email, Hash(password, passwordSalt), role,
                                                             Some(first_name), Some(last_name))]
    ensures r.Err? ==> tokens.rows == old(tokens.rows)
    ensures r.Ok? ==> r.value.user == SessionUser(userId, email, role)
    ensures r.Ok? ==> r.value.accessToken.claims == AccessClaims(userId, email, role)
    ensures r.Ok? ==> r.value.refreshToken == Compact(RefreshJwt(tokenId, userId, secrets.refresh.value, nowMs))
    ensures r.Ok? ==> tokens.rows == old(tokens.rows)[tokenId := IssuedRow(tokenId, userId, r.value.refreshToken,
                                                                             Truncate(ip), userAgent, nowMs, tokenSalt)]
  {
    if users.GetUserByEmail(email).Some? {
      r := Err(Registration("Email already registered"));
      return;
    }
    var hashedPassword := Hash(password, passwordSalt);
    var created := users.CreateUser(UserInput(email, hashedPassword, role, Some(first_name), Some(last_name)), userId);
    if created.Err? {
      r := Err(created.error);
      return;
    }
    var user := created.value;
    var truncatedIp := Truncate(ip);
    var accessToken := GenerateAccessToken(AccessPayload(user.id, user.email, user.role), secrets.access, nowMs);
    if accessToken.Err? {
      r := Err(accessToken.error);
      return;
    }
    var refreshToken := GenerateRefreshToken(tokens, user.id, truncatedIp, userAgent, secrets.refresh, nowMs, tokenId, tokenSalt);
    if refreshToken.Err? {
      r := Err(refreshToken.error);
      return;
    }
    r := Ok(Session(accessToken.value, refreshToken.value, SessionUser(user.id, user.email, user.role)));
  }

  /**
   * `authenticateUser`: check the credentials, issue the refresh token, then mint the access
   * token from the stored user. The refresh row is written before the access token is minted.
   */
  method AuthenticateUser(users: UserStore, tokens: TokenStore, email: string, password: string, ip: ClientIp,
                          userAgent: string, secrets: Secrets, nowMs: nat, tokenId: Id, tokenSalt: nat)
    returns (r: Result<Session, Thrown>)
    requires users.Valid() && tokens.Valid()
    modifies tokens
    ensures tokens.Valid()
    ensures CheckCredentials(users, email, password).Err? ==>
              r == Err(Auth("Invalid credentials")) && tokens.rows == old(tokens.rows)
    ensures r.Ok? <==>
              CheckCredentials(users, email, password).Ok? && Defined(secrets.refresh) && tokenId !in old(tokens.rows)
              && GenerateAccessToken(AccessPayload(CheckCredentials(users, email, password).value.id, email,
                                                   CheckCredentials(users, email, password).value.role), secrets.access, nowMs).Ok?
    ensures CheckCredentials(users, email, password).Ok? && !Defined(secrets.refresh) ==>
              r == Err(PlainError("JWT refresh secret not defined")) && tokens.rows == old(tokens.rows)
    ensures CheckCredentials(users, email, password).Ok? && Defined(secrets.refresh) && tokenId in old(tokens.rows) ==>
              r == Err(StoreFailure(UniqueViolation)) && tokens.rows == old(tokens.rows)
    ensures r.Ok? ==>
              var u := CheckCredentials(users, email, password).value;
              && r.value.user == SessionUser(u.id, u.email, u.role)
              && r.value.accessToken.claims == AccessClaims(u.id, u.email, u.role)
              && r.value.refreshToken == Compact(RefreshJwt(tokenId, u.id, secrets.refresh.value, nowMs))
    ensures CheckCredentials(users, email, password).Ok? && Defined(secrets.refresh) && tokenId !in old(tokens.rows) ==>
              var u := CheckCredentials(users, email, password).value;
              tokens.rows == old(tokens.rows)[tokenId := IssuedRow(tokenId, u.id, Compact(RefreshJwt(tokenId, u.id, secrets.refresh.value, nowMs)),
                                                                     Truncate(ip), userAgent, nowMs, tokenSalt)]
  {
    var checked := CheckCredentials(users, email, password);
    if checked.Err? {
      r := Err(checked.error);
      return;
    }
    var user := checked.value;
    var truncatedIp := Truncate(ip);
    var refreshToken := GenerateRefreshToken(tokens, user.id, truncatedIp, userAgent, secrets.refresh, nowMs, tokenId, tokenSalt);
    if refreshToken.Err? {
      r := Err(refreshToken.error);
      return;
    }
    var accessToken := GenerateAccessToken(AccessPayload(user.id, user.email, user.role), secrets.access, nowMs);
    if accessToken.Err? {
      r := Err(accessToken.error);
      return;
    }
    r := Ok(Session(accessToken.value, refreshToken.value, SessionUser(user.id, user.email, user.role)));
  }

  /** `updateUserPassword`: refuse a mismatched confirmation, else store the new digest. */
  method UpdateUserPassword(users: UserStore, user_id: Id, password: string, confirmPassword: string,
                            nowMs: nat, salt: nat) returns (r: Result<PasswordUpdateResult, Thrown>)
    requires users.Valid()
    modifies users
    ensures users.Valid()
    ensures password != confirmPassword ==>
              r == Err(PlainError("Passwords do not match")) && users.users == old(users.users)
    ensures r.Ok? <==> password == confirmPassword && user_id in old(users.users)
    ensures r.Ok? ==> r.value == PasswordUpdateResult(nowMs, user_id)
    ensures r.Ok? ==> users.users == old(users.users)[user_id := old(users.users)[user_id].(password := Hash(password, salt))]
    ensures r.Err? ==> users.users == old(users.users)
  {
    if password != confirmPassword {
      r := Err(PlainError("Passwords do not match"));
      return;
    }
    var updated := users.UpdatePassword(user_id, Hash(password, salt));
    if updated.Err? {
      r := Err(updated.error);
      return;
    }
    r := Ok(PasswordUpdateResult(nowMs, user_id));
  }
}
